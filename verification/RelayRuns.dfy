/**
  Whole runs of the relay as interleaved steps. Each connection has one reader. It
  checks the subscription limit, stores a subscription and answers it in three steps;
  it checks an event, saves it, files it under its channel and publishes it in up to
  four. Between any two steps other readers, the deliveries of earlier broadcasts and
  retention may run.
 */
module RelayRuns {
  import opened Wrappers
  import opened Orders
  import opened Events
  import opened TagCodec
  import opened MemoryStore
  import opened Deletions
  import opened Search
  import opened Protocol
  import opened Relay
  import RL = RateLimiter

  /** What the reader of a connection has in hand. */
  datatype Phase =
    | Idle
    | Inserting(subId: string, filters: seq<Filter>)
    | Answering(subId: string, filters: seq<Filter>)
    | Storing(evt: Event)
    | Filing(evt: Event)
    | Publishing(evt: Event)

  datatype Peer = Peer(session: Session, phase: Phase)

  /** Connections are numbered in the order they are opened. */
  datatype World = World(store: Memory, peers: map<nat, Peer>, inFlight: multiset<Flight<nat>>, connected: nat)

  const START := World(EMPTY, map[], multiset{}, 0)

  datatype Move =
    | Connect(p: nat, challenge: string)
    | Disconnect(p: nat)
    | Receive(p: nat, frame: Frame, rate: RL.Verdict, now: int)
    | Insert(p: nat)
    | Respond(p: nat, now: int)
    | Store(p: nat)
    | File(p: nat)
    | Publish(p: nat)
    | Arrive(flight: Flight<nat>, now: int)
    | Retention(now: int)

  // ---------- steps ----------

  function NewSession(cfg: Config, challenge: string): Session {
    if cfg.requireAuth then Session(true, false, challenge, "", map[], [AuthReply(challenge)])
    else Session(false, false, "", "", map[], [])
  }

  /** Where handling an event leads after its checks, the last of which looks for its id; idle if it ends there. */
  ghost function FirstPhase(cfg: Config, rules: Rules, now: int, m: Memory, s: Session, e: Event): Phase {
    if e.kind == AUTH_KIND || (cfg.requireAuth && !s.authenticated) || !rules.policyAllows(e)
       || !rules.kindValid(e) || !ValidRequest(e) then Idle
    else if IsEphemeral(e.kind) then Publishing(e)
    else if rules.expired(e, now) || e.kind == DELETION || e.kind == REQUEST_TO_VANISH then Idle
    else if e.kind == GIFT_WRAP || Fetched(m, e.id) == Err(NotFound) then Storing(e)
    else Idle
  }

  function Accept(e: Event): Reply { OkReply(e.id, true, NoReason) }

  /** SaveEvent; it refuses an id tombstoned since the check. */
  ghost function AfterStore(w: World, p: nat): World
    requires p in w.peers && w.peers[p].phase.Storing?
  {
    var s, e := w.peers[p].session, w.peers[p].phase.evt;
    if e.id in w.store.deleted then
      var refused := Say(Say(s, OkReply(e.id, false, SaveFailed)), OkReply(e.id, false, HandlerFailed));
      w.(peers := w.peers[p := Peer(refused, Idle)])
    else
      w.(store := Saved(w.store, e),
         peers := w.peers[p := if IsChannelKind(e.kind) then Peer(s, Filing(e)) else Peer(Say(s, Accept(e)), Publishing(e))])
  }

  /** SaveChannelEvent. */
  ghost function AfterFile(w: World, p: nat): World
    requires p in w.peers && w.peers[p].phase.Filing?
  {
    var s, e := w.peers[p].session, w.peers[p].phase.evt;
    w.(store := ChannelSaved(w.store, e), peers := w.peers[p := Peer(Say(s, Accept(e)), Publishing(e))])
  }

  /** The broadcast, and the dispatcher's own OK; an ephemeral event has not been answered before. */
  ghost function AfterPublish(w: World, p: nat): World
    requires p in w.peers && w.peers[p].phase.Publishing?
  {
    var s, e := w.peers[p].session, w.peers[p].phase.evt;
    var answered := Say(if IsEphemeral(e.kind) then Say(s, Accept(e)) else s, Accept(e));
    w.(inFlight := w.inFlight + Launched(w.peers.Keys, e), peers := w.peers[p := Peer(answered, Idle)])
  }

  ghost predicate ReceiveStep(cfg: Config, rules: Rules, w: World, st: Move, w': World)
    requires st.Receive?
  {
    st.p in w.peers && w.peers[st.p].phase.Idle? &&
    var s := w.peers[st.p].session;
    var a := Admitted(rules.valid, s, st.frame, st.rate);
    if a.Subscribe? then
      LimitOk(a.filters) && w' == w.(peers := w.peers[st.p := Peer(s, Inserting(a.subId, a.filters))])
    else if a.Handle? && !FirstPhase(cfg, rules, st.now, w.store, s, a.evt).Idle? then
      w' == w.(peers := w.peers[st.p := Peer(s, FirstPhase(cfg, rules, st.now, w.store, s, a.evt))])
    else
      var h := Reacted(cfg, rules, st.now, w.store, s, a);
      w' == w.(store := h.store, peers := w.peers[st.p := Peer(h.session, Idle)])
  }

  ghost predicate RespondStep(cfg: Config, rules: Rules, w: World, st: Move, w': World)
    requires st.Respond?
  {
    st.p in w.peers && w.peers[st.p].phase.Answering? && LimitOk(w.peers[st.p].phase.filters) &&
    var peer := w.peers[st.p];
    exists result ::
      QueryResult(w.store, rules, peer.phase.filters, result)
      && w' == w.(peers := w.peers[st.p := Peer(Answered(cfg, rules, st.now, peer.session, peer.phase.subId, result), Idle)])
  }

  ghost predicate ArriveStep(rules: Rules, w: World, st: Move, w': World)
    requires st.Arrive?
  {
    st.flight in w.inFlight && w' == w.(inFlight := w.inFlight - multiset{st.flight}, peers := w'.peers) &&
    var p := st.flight.peer;
    if p in w.peers then
      p in w'.peers && w'.peers == w.peers[p := Peer(w'.peers[p].session, w.peers[p].phase)]
      && Delivered(rules, st.now, w.peers[p].session, st.flight.evt, w'.peers[p].session)
    else w'.peers == w.peers
  }

  /** A connection ends when its reader has nothing in hand. */
  ghost predicate Next(cfg: Config, rules: Rules, w: World, st: Move, w': World) {
    match st
    case Connect(p, challenge) =>
      p == w.connected && challenge != ""
      && w' == w.(peers := w.peers[p := Peer(NewSession(cfg, challenge), Idle)], connected := w.connected + 1)
    case Disconnect(p) => p in w.peers && w.peers[p].phase.Idle? && w' == w.(peers := w.peers - {p})
    case Receive(_, _, _, _) => ReceiveStep(cfg, rules, w, st, w')
    case Insert(p) =>
      p in w.peers && w.peers[p].phase.Inserting? &&
      var peer := w.peers[p];
      w' == w.(peers := w.peers[p := Peer(Subscribed(peer.session, peer.phase.subId, peer.phase.filters),
                                          Answering(peer.phase.subId, peer.phase.filters))])
    case Respond(_, _) => RespondStep(cfg, rules, w, st, w')
    case Store(p) => p in w.peers && w.peers[p].phase.Storing? && w' == AfterStore(w, p)
    case File(p) => p in w.peers && w.peers[p].phase.Filing? && w' == AfterFile(w, p)
    case Publish(p) => p in w.peers && w.peers[p].phase.Publishing? && w' == AfterPublish(w, p)
    case Arrive(_, _) => ArriveStep(rules, w, st, w')
    case Retention(now) => w' == w.(store := AfterRetention(cfg, now, w.store))
  }

  ghost predicate IsRun(cfg: Config, rules: Rules, ws: seq<World>, sts: seq<Move>) {
    && |ws| == |sts| + 1 && ws[0] == START
    && forall i: nat :: i < |sts| ==> MoveAt(cfg, rules, ws, sts, i)
  }

  ghost predicate MoveAt(cfg: Config, rules: Rules, ws: seq<World>, sts: seq<Move>, i: nat)
    requires i < |sts| && |ws| == |sts| + 1
  {
    Next(cfg, rules, ws[i], sts[i], ws[i + 1])
  }

  /** A step of the reader of connection p. */
  predicate IsReaderMove(st: Move, p: nat) {
    (st.Receive? || st.Insert? || st.Respond? || st.Store? || st.File? || st.Publish?) && st.p == p
  }

  // ---------- what every step keeps ----------

  ghost predicate NothingRead(s: Session) {
    s.subscriptions == map[] && forall r: Reply :: r in s.sent ==> !r.EventReply?
  }

  /** An event in hand was validated, and one to be saved is not ephemeral. */
  ghost predicate PhaseOk(rules: Rules, s: Session, phase: Phase) {
    match phase
    case Inserting(subId, _) => subId in s.subscriptions || |s.subscriptions| < MAX_SUBSCRIPTIONS
    case Storing(e) => rules.valid(e) && !IsEphemeral(e.kind)
    case Filing(e) => rules.valid(e) && !IsEphemeral(e.kind)
    case Publishing(e) => rules.valid(e)
    case _ => true
  }

  ghost predicate SessionOk(cfg: Config, s: Session) {
    && s.requireAuth == cfg.requireAuth
    && (cfg.requireAuth ==> s.authChallenge != "")
    && |s.subscriptions| <= MAX_SUBSCRIPTIONS
  }

  ghost predicate PeerOk(cfg: Config, rules: Rules, peer: Peer) {
    && SessionOk(cfg, peer.session) && PhaseOk(rules, peer.session, peer.phase)
    && (cfg.requireAuth && !peer.session.authenticated ==> NothingRead(peer.session) && peer.phase.Idle?)
  }

  ghost predicate StoreOk(rules: Rules, m: Memory) {
    && WellFormed(m)
    && forall id :: id in m.events ==> rules.valid(m.events[id]) && !IsEphemeral(m.events[id].kind)
  }

  ghost predicate WorldOk(cfg: Config, rules: Rules, w: World) {
    && StoreOk(rules, w.store)
    && (forall p :: p in w.peers ==> PeerOk(cfg, rules, w.peers[p]))
    && (forall p :: p in w.peers ==> p < w.connected)
  }

  lemma SavedKeepsStore(rules: Rules, m: Memory, e: Event)
    requires StoreOk(rules, m) && rules.valid(e) && !IsEphemeral(e.kind)
    ensures StoreOk(rules, Saved(m, e)) && m.deleted <= Saved(m, e).deleted
  {
    SavedIsWellFormed(m, e);
  }

  lemma ChannelSavedKeepsStore(rules: Rules, m: Memory, e: Event)
    requires StoreOk(rules, m)
    ensures StoreOk(rules, ChannelSaved(m, e)) && m.deleted <= ChannelSaved(m, e).deleted
  {
  }

  lemma TombstonedKeepsStore(rules: Rules, m: Memory, ids: set<string>)
    requires StoreOk(rules, m) && ids <= m.events.Keys
    ensures StoreOk(rules, Tombstoned(m, ids)) && m.deleted <= Tombstoned(m, ids).deleted
  {
    TombstonedIsWellFormed(m, ids);
  }

  lemma DeletionKeepsStore(rules: Rules, m: Memory, e: Event)
    requires StoreOk(rules, m)
    ensures StoreOk(rules, AfterDeletion(m, e)) && m.deleted <= AfterDeletion(m, e).deleted
  {
    TombstonedKeepsStore(rules, m, NamedIds(m, e));
  }

  /** An event that is not saved leads to one of these stores, and is not broadcast. */
  lemma EndsInChecks(cfg: Config, rules: Rules, now: int, m: Memory, s: Session, e: Event)
    requires FirstPhase(cfg, rules, now, m, s, e).Idle?
    ensures var h := Handled(cfg, rules, now, m, s, e);
            && !h.broadcast
            && (h.store == m || h.store == AfterDeletion(m, e)
                || h.store == AfterVanish(m, e, cfg.relayURL, rules.folding.equalFold))
  {
  }

  lemma HandledKeepsStore(cfg: Config, rules: Rules, now: int, m: Memory, s: Session, e: Event)
    requires StoreOk(rules, m) && FirstPhase(cfg, rules, now, m, s, e).Idle?
    ensures StoreOk(rules, Handled(cfg, rules, now, m, s, e).store)
    ensures m.deleted <= Handled(cfg, rules, now, m, s, e).store.deleted
    ensures m.events == Handled(cfg, rules, now, m, s, e).store.events
  {
    EndsInChecks(cfg, rules, now, m, s, e);
    DeletionKeepsStore(rules, m, e);
    TombstonedKeepsStore(rules, m, OwnedBy(m, e.pubkey));
  }

  /** All that handling an event may change of the session: authentication, and the log by one message that is no event. */
  ghost predicate OnlyAnswers(rules: Rules, s: Session, e: Event, s': Session) {
    && s'.(authenticated := s.authenticated, authPubKey := s.authPubKey, sent := s.sent) == s
    && (s'.authenticated <==> s.authenticated || Authenticates(rules, s, e))
    && (s'.sent == s.sent || (|s'.sent| == |s.sent| + 1 && s'.sent[..|s.sent|] == s.sent && !s'.sent[|s.sent|].EventReply?))
  }

  lemma HandledAuthSession(rules: Rules, m: Memory, s: Session, e: Event)
    requires e.kind == AUTH_KIND
    ensures OnlyAnswers(rules, s, e, HandledAuth(rules, m, s, e).session)
  {
  }

  /** One message that is no event, or none. */
  ghost predicate OneAnswer(s: Session, s': Session) {
    s' == s || (|s'.sent| == |s.sent| + 1 && !s'.sent[|s.sent|].EventReply? && s' == Say(s, s'.sent[|s.sent|]))
  }

  lemma ProcessedSession(cfg: Config, rules: Rules, now: int, m: Memory, s: Session, e: Event)
    ensures OneAnswer(s, Processed(cfg, rules, now, m, s, e).session)
  {
  }

  lemma HandledSession(cfg: Config, rules: Rules, now: int, m: Memory, s: Session, e: Event)
    ensures OnlyAnswers(rules, s, e, Handled(cfg, rules, now, m, s, e).session)
  {
    if e.kind == AUTH_KIND {
      HandledAuthSession(rules, m, s, e);
    } else {
      ProcessedSession(cfg, rules, now, m, s, e);
      OneAnswerIsOnlyAnswers(rules, s, e, Handled(cfg, rules, now, m, s, e).session);
    }
  }

  lemma OneAnswerIsOnlyAnswers(rules: Rules, s: Session, e: Event, s': Session)
    requires OneAnswer(s, s') && !Authenticates(rules, s, e)
    ensures OnlyAnswers(rules, s, e, s')
  {
  }

  lemma ReactedSession(cfg: Config, rules: Rules, now: int, m: Memory, s: Session, a: Action)
    requires !a.Subscribe? && !(a.Answer? && a.reply.EventReply?)
    ensures var s' := Reacted(cfg, rules, now, m, s, a).session;
            && s'.subscriptions.Keys <= s.subscriptions.Keys
            && s'.requireAuth == s.requireAuth && s'.authChallenge == s.authChallenge
            && (s'.authenticated <==> s.authenticated || (a.Handle? && Authenticates(rules, s, a.evt)))
            && (NothingRead(s) ==> NothingRead(s'))
  {
    if a.Handle? {
      HandledSession(cfg, rules, now, m, s, a.evt);
    }
  }

  lemma MapSize(m: Subscriptions, n: Subscriptions)
    requires n.Keys <= m.Keys
    ensures |n| <= |m|
  {
    SubsetSize(n.Keys, m.Keys);
    assert |n.Keys| == |n| && |m.Keys| == |m|;
  }

  lemma InsertedSize(subs: Subscriptions, subId: string, filters: seq<Filter>)
    ensures var n := subs[subId := filters]; |n| == if subId in subs then |subs| else |subs| + 1
  {
    var n := subs[subId := filters];
    assert n.Keys == subs.Keys + {subId};
    assert |n.Keys| == |n| && |subs.Keys| == |subs|;
  }

  lemma ReceiveKeeps(cfg: Config, rules: Rules, w: World, st: Move, w': World)
    requires WorldOk(cfg, rules, w) && st.Receive? && ReceiveStep(cfg, rules, w, st, w')
    ensures WorldOk(cfg, rules, w')
    ensures w.store.deleted <= w'.store.deleted && w'.store.events == w.store.events
  {
    var s := w.peers[st.p].session;
    var a := Admitted(rules.valid, s, st.frame, st.rate);
    AdmittedIsValid(rules.valid, s, st.frame, st.rate);
    if cfg.requireAuth && !s.authenticated {
      GateStopsUnauthenticated(rules.valid, s, st.frame, st.rate);
    }
    if !a.Subscribe? && !(a.Handle? && !FirstPhase(cfg, rules, st.now, w.store, s, a.evt).Idle?) {
      ReactedStore(cfg, rules, st.now, w.store, s, a);
      ReactedPeer(cfg, rules, st.now, w.store, s, a);
    }
  }

  lemma ReactedPeer(cfg: Config, rules: Rules, now: int, m: Memory, s: Session, a: Action)
    requires SessionOk(cfg, s) && (cfg.requireAuth && !s.authenticated ==> NothingRead(s))
    requires !a.Subscribe? && !(a.Answer? && a.reply.EventReply?)
    ensures PeerOk(cfg, rules, Peer(Reacted(cfg, rules, now, m, s, a).session, Idle))
  {
    ReactedSession(cfg, rules, now, m, s, a);
    MapSize(s.subscriptions, Reacted(cfg, rules, now, m, s, a).session.subscriptions);
  }

  lemma ReactedStore(cfg: Config, rules: Rules, now: int, m: Memory, s: Session, a: Action)
    requires StoreOk(rules, m) && !a.Subscribe?
    requires a.Handle? ==> FirstPhase(cfg, rules, now, m, s, a.evt).Idle?
    ensures var n := Reacted(cfg, rules, now, m, s, a).store;
            StoreOk(rules, n) && m.deleted <= n.deleted && n.events == m.events
  {
    if a.Handle? {
      HandledKeepsStore(cfg, rules, now, m, s, a.evt);
    }
  }

  lemma InsertKeeps(cfg: Config, rules: Rules, w: World, st: Move, w': World)
    requires WorldOk(cfg, rules, w) && st.Insert? && Next(cfg, rules, w, st, w')
    ensures WorldOk(cfg, rules, w') && w'.store == w.store
  {
    var peer := w.peers[st.p];
    InsertedSize(peer.session.subscriptions, peer.phase.subId, peer.phase.filters);
  }

  lemma RespondKeeps(cfg: Config, rules: Rules, w: World, st: Move, w': World)
    requires WorldOk(cfg, rules, w) && st.Respond? && RespondStep(cfg, rules, w, st, w')
    ensures WorldOk(cfg, rules, w') && w'.store == w.store
  {
    var peer := w.peers[st.p];
    MapSize(peer.session.subscriptions, peer.session.subscriptions - {peer.phase.subId});
  }

  lemma StoreKeeps(cfg: Config, rules: Rules, w: World, p: nat)
    requires WorldOk(cfg, rules, w) && p in w.peers && w.peers[p].phase.Storing?
    ensures WorldOk(cfg, rules, AfterStore(w, p))
    ensures var n := AfterStore(w, p).store; w.store.deleted <= n.deleted && w.store.events.Keys <= n.events.Keys
  {
    assert PeerOk(cfg, rules, w.peers[p]);
    SavedKeepsStore(rules, w.store, w.peers[p].phase.evt);
    assert PeerOk(cfg, rules, AfterStore(w, p).peers[p]);
  }

  lemma FileKeeps(cfg: Config, rules: Rules, w: World, p: nat)
    requires WorldOk(cfg, rules, w) && p in w.peers && w.peers[p].phase.Filing?
    ensures WorldOk(cfg, rules, AfterFile(w, p))
    ensures var n := AfterFile(w, p).store; n.deleted == w.store.deleted && n.events == w.store.events
  {
    assert PeerOk(cfg, rules, w.peers[p]);
    ChannelSavedKeepsStore(rules, w.store, w.peers[p].phase.evt);
    assert PeerOk(cfg, rules, AfterFile(w, p).peers[p]);
  }

  lemma PublishKeeps(cfg: Config, rules: Rules, w: World, p: nat)
    requires WorldOk(cfg, rules, w) && p in w.peers && w.peers[p].phase.Publishing?
    ensures WorldOk(cfg, rules, AfterPublish(w, p)) && AfterPublish(w, p).store == w.store
  {
    assert PeerOk(cfg, rules, w.peers[p]);
    assert PeerOk(cfg, rules, AfterPublish(w, p).peers[p]);
  }

  lemma ArriveKeeps(cfg: Config, rules: Rules, w: World, st: Move, w': World)
    requires WorldOk(cfg, rules, w) && st.Arrive? && ArriveStep(rules, w, st, w')
    ensures WorldOk(cfg, rules, w') && w'.store == w.store
  {
    var p := st.flight.peer;
    if p in w.peers {
      assert PeerOk(cfg, rules, w.peers[p]);
      assert PeerOk(cfg, rules, w'.peers[p]);
    }
  }

  /** Only validated events are handled, and a subscription is admitted only below the limit. */
  lemma AdmittedIsValid(valid: Event -> bool, s: Session, f: Frame, rate: RL.Verdict)
    ensures var a := Admitted(valid, s, f, rate);
            && (a.Handle? ==> valid(a.evt))
            && (a.Subscribe? ==> a.subId in s.subscriptions || |s.subscriptions| < MAX_SUBSCRIPTIONS)
            && (a.Answer? ==> !a.reply.EventReply?)
  {
  }

  lemma StepKeeps(cfg: Config, rules: Rules, w: World, st: Move, w': World)
    requires WorldOk(cfg, rules, w) && Next(cfg, rules, w, st, w')
    ensures WorldOk(cfg, rules, w')
    ensures w.store.deleted <= w'.store.deleted && w.store.events.Keys <= w'.store.events.Keys
  {
    if st.Receive? {
      ReceiveKeeps(cfg, rules, w, st, w');
    } else if st.Insert? {
      InsertKeeps(cfg, rules, w, st, w');
    } else if st.Respond? {
      RespondKeeps(cfg, rules, w, st, w');
    } else if st.Store? {
      StoreKeeps(cfg, rules, w, st.p);
    } else if st.File? {
      FileKeeps(cfg, rules, w, st.p);
    } else if st.Publish? {
      PublishKeeps(cfg, rules, w, st.p);
    } else if st.Arrive? {
      ArriveKeeps(cfg, rules, w, st, w');
    } else if st.Connect? {
      ConnectKeeps(cfg, rules, w, st.p, st.challenge);
    } else if st.Retention? {
      RetentionKeeps(cfg, rules, w, st.now);
    }
  }

  lemma ConnectKeeps(cfg: Config, rules: Rules, w: World, p: nat, challenge: string)
    requires WorldOk(cfg, rules, w) && challenge != "" && p == w.connected
    ensures WorldOk(cfg, rules, w.(peers := w.peers[p := Peer(NewSession(cfg, challenge), Idle)], connected := p + 1))
  {
  }

  lemma RetentionKeeps(cfg: Config, rules: Rules, w: World, now: int)
    requires WorldOk(cfg, rules, w)
    ensures WorldOk(cfg, rules, w.(store := AfterRetention(cfg, now, w.store)))
    ensures w.store.deleted <= AfterRetention(cfg, now, w.store).deleted
    ensures AfterRetention(cfg, now, w.store).events == w.store.events
  {
    TombstonedKeepsStore(rules, w.store, Expiring(w.store, Cutoff(cfg, now), RETENTION_EXEMPT));
  }

  /** A step that is not of its own reader leaves a connection alone, but for a copy that lands. */
  lemma OthersDoNotTouch(cfg: Config, rules: Rules, w: World, st: Move, w': World, p: nat)
    requires WorldOk(cfg, rules, w) && Next(cfg, rules, w, st, w') && !IsReaderMove(st, p) && p in w.peers && p in w'.peers
    ensures w'.peers[p].phase == w.peers[p].phase
    ensures var s, s' := w.peers[p].session, w'.peers[p].session; s' == s.(sent := s'.sent)
  {
    if st.Arrive? {
      LandingKeepsSession(rules, w, st, w', p);
    } else if st.Receive? || st.Insert? || st.Respond? || st.Store? || st.File? || st.Publish? {
      assert w'.peers[p] == w.peers[p];
    }
  }

  lemma LandingKeepsSession(rules: Rules, w: World, st: Move, w': World, p: nat)
    requires st.Arrive? && ArriveStep(rules, w, st, w') && p in w.peers
    ensures p in w'.peers && w'.peers[p].phase == w.peers[p].phase
    ensures var s, s' := w.peers[p].session, w'.peers[p].session; s' == s.(sent := s'.sent)
  {
  }

  lemma {:induction false} RunKeeps(cfg: Config, rules: Rules, ws: seq<World>, sts: seq<Move>, i: nat)
    requires IsRun(cfg, rules, ws, sts) && i < |ws|
    ensures WorldOk(cfg, rules, ws[i])
  {
    if i == 0 {
    } else {
      RunKeeps(cfg, rules, ws, sts, i - 1);
      assert MoveAt(cfg, rules, ws, sts, i - 1);
      StepKeeps(cfg, rules, ws[i - 1], sts[i - 1], ws[i]);
    }
  }

  /** A client never holds more than 20 subscriptions, whatever runs between the check and the insertion. */
  lemma SubscriptionCap(cfg: Config, rules: Rules, ws: seq<World>, sts: seq<Move>, i: nat, p: nat)
    requires IsRun(cfg, rules, ws, sts) && i < |ws| && p in ws[i].peers
    ensures |ws[i].peers[p].session.subscriptions| <= 20
  {
    RunKeeps(cfg, rules, ws, sts, i);
  }

  // ---------- authentication ----------

  /** The step handles a valid AUTH event of connection p whose content is the challenge. */
  ghost predicate IsHandshakeStep(rules: Rules, w: World, st: Move, p: nat) {
    st.Receive? && st.p == p && p in w.peers &&
    var a := Admitted(rules.valid, w.peers[p].session, st.frame, st.rate);
    a.Handle? && rules.valid(a.evt) && rules.signed(a.evt) && a.evt.kind == 22242
    && TrimSpace(a.evt.content) != "" && a.evt.content == w.peers[p].session.authChallenge
  }

  ghost predicate HandshakeSeen(rules: Rules, ws: seq<World>, sts: seq<Move>, p: nat, i: nat)
    requires |ws| == |sts| + 1 && i < |ws|
  {
    exists j :: 0 <= j < i && IsHandshakeStep(rules, ws[j], sts[j], p)
  }

  lemma OnlyHandshakeAuthenticates(cfg: Config, rules: Rules, w: World, st: Move, w': World, p: nat)
    requires cfg.requireAuth && WorldOk(cfg, rules, w) && Next(cfg, rules, w, st, w')
    requires p in w'.peers && w'.peers[p].session.authenticated
    ensures (p in w.peers && w.peers[p].session.authenticated) || IsHandshakeStep(rules, w, st, p)
  {
    if st.Receive? && st.p == p && !w.peers[p].session.authenticated {
      ReceivedHandshake(cfg, rules, w, st, w');
    }
  }

  lemma ReceivedHandshake(cfg: Config, rules: Rules, w: World, st: Move, w': World)
    requires cfg.requireAuth && WorldOk(cfg, rules, w) && st.Receive? && ReceiveStep(cfg, rules, w, st, w')
    requires !w.peers[st.p].session.authenticated && w'.peers[st.p].session.authenticated
    ensures IsHandshakeStep(rules, w, st, st.p)
  {
    var s := w.peers[st.p].session;
    assert PeerOk(cfg, rules, w.peers[st.p]);
    AdmittedIsValid(rules.valid, s, st.frame, st.rate);
    GateStopsUnauthenticated(rules.valid, s, st.frame, st.rate);
    ReactedSession(cfg, rules, st.now, w.store, s, Admitted(rules.valid, s, st.frame, st.rate));
  }

  lemma {:induction false} AuthenticatedMeansHandshake(cfg: Config, rules: Rules, ws: seq<World>, sts: seq<Move>,
                                                       i: nat, p: nat)
    requires cfg.requireAuth && IsRun(cfg, rules, ws, sts) && i < |ws|
    requires p in ws[i].peers && ws[i].peers[p].session.authenticated
    ensures HandshakeSeen(rules, ws, sts, p, i)
  {
    if i == 0 {
    } else {
      RunKeeps(cfg, rules, ws, sts, i - 1);
      assert MoveAt(cfg, rules, ws, sts, i - 1);
      OnlyHandshakeAuthenticates(cfg, rules, ws[i - 1], sts[i - 1], ws[i], p);
      if p in ws[i - 1].peers && ws[i - 1].peers[p].session.authenticated {
        AuthenticatedMeansHandshake(cfg, rules, ws, sts, i - 1, p);
        var j :| 0 <= j < i - 1 && IsHandshakeStep(rules, ws[j], sts[j], p);
        assert IsHandshakeStep(rules, ws[j], sts[j], p);
      }
    }
  }

  /** A connection's number is its own: it was open all the time since any earlier step that had it open. */
  lemma {:induction false} StaysOpen(cfg: Config, rules: Rules, ws: seq<World>, sts: seq<Move>, j: nat,
                                     i: nat, k: nat, p: nat)
    requires IsRun(cfg, rules, ws, sts) && j <= i <= k < |ws| && p in ws[j].peers && p in ws[k].peers
    ensures p in ws[i].peers
    decreases k - i
  {
    if i == k {
    } else {
      StaysOpen(cfg, rules, ws, sts, j, i + 1, k, p);
      ConnectedGrows(cfg, rules, ws, sts, j, i);
      RunKeeps(cfg, rules, ws, sts, j);
      assert MoveAt(cfg, rules, ws, sts, i);
      StillOpen(cfg, rules, ws[i], sts[i], ws[i + 1], p);
    }
  }

  lemma StillOpen(cfg: Config, rules: Rules, w: World, st: Move, w': World, p: nat)
    requires Next(cfg, rules, w, st, w') && p in w'.peers && p < w.connected
    ensures p in w.peers
  {
  }

  lemma {:induction false} ConnectedGrows(cfg: Config, rules: Rules, ws: seq<World>, sts: seq<Move>, j: nat, i: nat)
    requires IsRun(cfg, rules, ws, sts) && j <= i < |ws|
    ensures ws[j].connected <= ws[i].connected
  {
    if i == j {
    } else {
      ConnectedGrows(cfg, rules, ws, sts, j, i - 1);
      assert MoveAt(cfg, rules, ws, sts, i - 1);
    }
  }

  /**
    Where authentication is required, a connection that has not made the handshake
    holds no subscription, was never sent an event, and no step of its reader changes
    the store or starts a broadcast.
   */
  lemma AuthenticationSafety(cfg: Config, rules: Rules, ws: seq<World>, sts: seq<Move>, i: nat, p: nat)
    requires cfg.requireAuth && IsRun(cfg, rules, ws, sts) && i < |ws| && p in ws[i].peers
    requires !HandshakeSeen(rules, ws, sts, p, i)
    ensures NothingRead(ws[i].peers[p].session) && ws[i].peers[p].phase.Idle?
    ensures i < |sts| && IsReaderMove(sts[i], p) ==> ws[i + 1].store == ws[i].store && ws[i + 1].inFlight == ws[i].inFlight
  {
    if ws[i].peers[p].session.authenticated {
      AuthenticatedMeansHandshake(cfg, rules, ws, sts, i, p);
      assert false;
    }
    RunKeeps(cfg, rules, ws, sts, i);
    assert PeerOk(cfg, rules, ws[i].peers[p]);
    if i < |sts| && IsReaderMove(sts[i], p) {
      assert MoveAt(cfg, rules, ws, sts, i);
      UnauthenticatedChangesNothing(cfg, rules, ws[i], sts[i], ws[i + 1]);
    }
  }

  lemma UnauthenticatedChangesNothing(cfg: Config, rules: Rules, w: World, st: Move, w': World)
    requires cfg.requireAuth && st.Receive? && ReceiveStep(cfg, rules, w, st, w')
    requires var s := w.peers[st.p].session; s.requireAuth && !s.authenticated
    ensures w'.store == w.store && w'.inFlight == w.inFlight
  {
    GateStopsUnauthenticated(rules.valid, w.peers[st.p].session, st.frame, st.rate);
  }

  /** Conversely the handshake does authenticate, as the author of the event. */
  lemma HandshakeAuthenticates(cfg: Config, rules: Rules, w: World, st: Move, w': World, p: nat)
    requires IsHandshakeStep(rules, w, st, p) && Next(cfg, rules, w, st, w')
    ensures p in w'.peers
    ensures var s, s' := w.peers[p].session, w'.peers[p].session;
            var e := Admitted(rules.valid, s, st.frame, st.rate).evt;
            s' == s.(authenticated := true, authPubKey := e.pubkey, sent := s'.sent)
  {
  }

  // ---------- tombstones ----------

  lemma {:induction false} TombstonesStay(cfg: Config, rules: Rules, ws: seq<World>, sts: seq<Move>, i: nat, j: nat)
    requires IsRun(cfg, rules, ws, sts) && i <= j < |ws|
    ensures ws[i].store.deleted <= ws[j].store.deleted
  {
    if i == j {
    } else {
      TombstonesStay(cfg, rules, ws, sts, i, j - 1);
      MoveKeepsTombstones(cfg, rules, ws, sts, j - 1);
    }
  }

  lemma MoveKeepsTombstones(cfg: Config, rules: Rules, ws: seq<World>, sts: seq<Move>, j: nat)
    requires IsRun(cfg, rules, ws, sts) && j < |sts|
    ensures ws[j].store.deleted <= ws[j + 1].store.deleted
  {
    RunKeeps(cfg, rules, ws, sts, j);
    assert MoveAt(cfg, rules, ws, sts, j);
    StepKeeps(cfg, rules, ws[j], sts[j], ws[j + 1]);
  }

  // ---------- a reader left alone ----------

  /** What remains to be done of the event in hand. */
  ghost function Completed(w: World, p: nat): World
    requires p in w.peers
    decreases match w.peers[p].phase case Storing(_) => 3 case Filing(_) => 2 case Publishing(_) => 1 case _ => 0
  {
    match w.peers[p].phase
    case Storing(_) => Completed(AfterStore(w, p), p)
    case Filing(_) => Completed(AfterFile(w, p), p)
    case Publishing(_) => AfterPublish(w, p)
    case _ => w
  }

  /** Uninterrupted, the steps of an event do what handling it in one go does. */
  lemma EventAlone(cfg: Config, rules: Rules, w: World, st: Move, w': World)
    requires st.Receive? && Next(cfg, rules, w, st, w')
    requires Admitted(rules.valid, w.peers[st.p].session, st.frame, st.rate).Handle?
    ensures var s := w.peers[st.p].session;
            var a := Admitted(rules.valid, s, st.frame, st.rate);
            var h := Reacted(cfg, rules, st.now, w.store, s, a);
            st.p in w'.peers && Completed(w', st.p) ==
              w.(store := h.store, peers := w.peers[st.p := Peer(h.session, Idle)],
                 inFlight := if h.broadcast then w.inFlight + Launched(w.peers.Keys, a.evt) else w.inFlight)
  {
    var s, p := w.peers[st.p].session, st.p;
    var e := Admitted(rules.valid, s, st.frame, st.rate).evt;
    var first := FirstPhase(cfg, rules, st.now, w.store, s, e);
    if first.Idle? {
      EndsInChecks(cfg, rules, st.now, w.store, s, e);
    } else {
      PassesChecks(cfg, rules, st.now, w.store, s, e);
      if first.Publishing? {
        PublishedAlone(w, p, s, e);
      } else {
        StoredAlone(w, p, s, e);
      }
    }
  }

  /** An event that is published or saved is handled by one of these branches. */
  lemma PassesChecks(cfg: Config, rules: Rules, now: int, m: Memory, s: Session, e: Event)
    requires !FirstPhase(cfg, rules, now, m, s, e).Idle?
    ensures var first := FirstPhase(cfg, rules, now, m, s, e);
            && first == (if IsEphemeral(e.kind) then Publishing(e) else Storing(e))
            && Handled(cfg, rules, now, m, s, e) ==
               if IsEphemeral(e.kind) then Handling(m, Say(s, Accept(e)), true, false)
               else if e.id in m.deleted then Handling(m, Say(s, OkReply(e.id, false, SaveFailed)), false, true)
               else Handling(SavedAndFiled(m, e), Say(s, Accept(e)), true, false)
  {
  }

  ghost function SavedAndFiled(m: Memory, e: Event): Memory {
    if IsChannelKind(e.kind) then ChannelSaved(Saved(m, e), e) else Saved(m, e)
  }

  lemma PublishedAlone(w: World, p: nat, s: Session, e: Event)
    requires p in w.peers
    ensures var v := w.(peers := w.peers[p := Peer(s, Publishing(e))]);
            AfterPublish(v, p) ==
              w.(peers := w.peers[p := Peer(Say(if IsEphemeral(e.kind) then Say(s, Accept(e)) else s, Accept(e)), Idle)],
                 inFlight := w.inFlight + Launched(w.peers.Keys, e))
  {
    var v := w.(peers := w.peers[p := Peer(s, Publishing(e))]);
    assert v.peers.Keys == w.peers.Keys;
    var z := AfterPublish(v, p);
    assert z.peers == w.peers[p := z.peers[p]];
  }

  lemma StoredAlone(w: World, p: nat, s: Session, e: Event)
    requires p in w.peers && !IsEphemeral(e.kind)
    ensures var v := w.(peers := w.peers[p := Peer(s, Storing(e))]);
            Completed(v, p) ==
            if e.id in w.store.deleted then
              var refused := Say(Say(s, OkReply(e.id, false, SaveFailed)), OkReply(e.id, false, HandlerFailed));
              w.(peers := w.peers[p := Peer(refused, Idle)])
            else
              w.(store := SavedAndFiled(w.store, e), peers := w.peers[p := Peer(Say(Say(s, Accept(e)), Accept(e)), Idle)],
                 inFlight := w.inFlight + Launched(w.peers.Keys, e))
  {
    var v := w.(peers := w.peers[p := Peer(s, Storing(e))]);
    var u := AfterStore(v, p);
    assert u.peers == w.peers[p := u.peers[p]];
    assert Completed(v, p) == Completed(u, p);
    if e.id !in w.store.deleted {
      var saved := w.(store := Saved(w.store, e));
      if IsChannelKind(e.kind) {
        FiledAlone(saved, p, s, e);
      } else {
        PublishedAlone(saved, p, Say(s, Accept(e)), e);
      }
    }
  }

  lemma FiledAlone(w: World, p: nat, s: Session, e: Event)
    requires p in w.peers && !IsEphemeral(e.kind)
    ensures var v := w.(peers := w.peers[p := Peer(s, Filing(e))]);
            Completed(v, p) ==
              w.(store := ChannelSaved(w.store, e), peers := w.peers[p := Peer(Say(Say(s, Accept(e)), Accept(e)), Idle)],
                 inFlight := w.inFlight + Launched(w.peers.Keys, e))
  {
    var v := w.(peers := w.peers[p := Peer(s, Filing(e))]);
    var u := AfterFile(v, p);
    assert u.peers == w.peers[p := u.peers[p]];
    PublishedAlone(w.(store := ChannelSaved(w.store, e)), p, Say(s, Accept(e)), e);
  }

  /** Uninterrupted, the three steps of a REQ do what handling it in one go does, and nothing else. */
  lemma ReqAlone(cfg: Config, rules: Rules, w: World, st: Move, w': World)
    requires st.Receive? && st.p in w.peers && w.peers[st.p].phase.Idle?
    requires var a := Admitted(rules.valid, w.peers[st.p].session, st.frame, st.rate); a.Subscribe? && LimitOk(a.filters)
    ensures var p, s := st.p, w.peers[st.p].session;
            var a := Admitted(rules.valid, s, st.frame, st.rate);
            (exists w1, w2 :: Next(cfg, rules, w, st, w1) && Next(cfg, rules, w1, Insert(p), w2)
                              && Next(cfg, rules, w2, Respond(p, st.now), w'))
            <==> (exists result :: QueryResult(w.store, rules, a.filters, result) &&
                    w' == w.(peers := w.peers[p := Peer(
                      Answered(cfg, rules, st.now, Subscribed(s, a.subId, a.filters), a.subId, result), Idle)]))
  {
    var p, s := st.p, w.peers[st.p].session;
    var a := Admitted(rules.valid, s, st.frame, st.rate);
    var w1 := w.(peers := w.peers[p := Peer(s, Inserting(a.subId, a.filters))]);
    var w2 := w.(peers := w.peers[p := Peer(Subscribed(s, a.subId, a.filters), Answering(a.subId, a.filters))]);
    assert Next(cfg, rules, w, st, w1);
    assert w1.peers[p := w2.peers[p]] == w2.peers;
    assert Next(cfg, rules, w1, Insert(p), w2);
    forall result: seq<Event>
      ensures var last := Peer(Answered(cfg, rules, st.now, w2.peers[p].session, a.subId, result), Idle);
              w2.peers[p := last] == w.peers[p := last]
    {}
    assert forall v1, v2 :: Next(cfg, rules, w, st, v1) && Next(cfg, rules, v1, Insert(p), v2) ==> v2 == w2;
  }

  // ---------- delivery ----------

  /** A delivery queues at most one copy, and queues one exactly when the event should be received. */
  lemma DeliveryIsExact(cfg: Config, rules: Rules, w: World, st: Move, w': World)
    requires st.Arrive? && Next(cfg, rules, w, st, w') && st.flight.peer in w.peers
    ensures var p := st.flight.peer; var s, e := w.peers[p].session, st.flight.evt;
            && p in w'.peers
            && (ShouldReceive(rules, st.now, s.subscriptions, e) <==> w'.peers[p].session.sent != s.sent)
            && (w'.peers[p].session.sent != s.sent ==>
                  exists subId :: MatchedBy(s.subscriptions, subId, e)
                    && w'.peers[p].session.sent == s.sent + [EventReply(subId, e)])
            && (forall q :: q in w.peers && q != p ==> q in w'.peers && w'.peers[q] == w.peers[q])
  {
  }

  // ---------- the answer to a REQ ----------

  lemma StreamContents(rules: Rules, now: int, m: Memory, filters: seq<Filter>, result: seq<Event>, cap: nat)
    requires LimitOk(filters) && Answers(m, filters, result)
    ensures var events := Take(Unexpired(result, rules, now), cap);
            && |events| <= cap && NoDuplicates(events) && Descending(events, CreatedAt)
            && (forall e :: e in events ==> e in Live(m) && AcceptedBySome(filters, e) && !rules.expired(e, now))
            && (LimitOf(filters).None? && |events| < cap ==>
                  forall e :: e in Matching(m, filters) && !rules.expired(e, now) ==> e in events)
            && (forall e, x :: e in Matching(m, filters) && !rules.expired(e, now) && e !in events && x in events ==>
                  e.createdAt <= x.createdAt)
  {
    AnswersAreNewest(m, filters, result);
    KeptMembers(result, e => !rules.expired(e, now));
    KeptInOrder(result, e => !rules.expired(e, now), CreatedAt);
    var all := Unexpired(result, rules, now);
    assert forall e :: e in Take(all, cap) ==> e in all;
    NothingNewerIsLeftOut(rules, now, m, filters, result, cap);
  }

  lemma NothingNewerIsLeftOut(rules: Rules, now: int, m: Memory, filters: seq<Filter>, result: seq<Event>, cap: nat)
    requires LimitOk(filters) && Answers(m, filters, result)
    ensures var events := Take(Unexpired(result, rules, now), cap);
            forall e, x :: e in Matching(m, filters) && !rules.expired(e, now) && e !in events && x in events ==>
              e.createdAt <= x.createdAt
  {
    AnswersAreNewest(m, filters, result);
    var all := Unexpired(result, rules, now);
    KeptMembers(result, e => !rules.expired(e, now));
    KeptInOrder(result, e => !rules.expired(e, now), CreatedAt);
    RestIsSmaller(all, Take(all, cap), CreatedAt);
    assert forall x :: x in Take(all, cap) ==> x in all && x in result;
  }

  predicate NamesNoChannel(filters: seq<Filter>) {
    forall k :: 0 <= k < |filters| ==> !NamesAChannel(filters[k])
  }

  predicate Searches(filters: seq<Filter>) {
    exists k :: 0 <= k < |filters| && filters[k].search != ""
  }

  /** The log grows by each event in order, under the id of the request, and then the end mark. */
  ghost predicate IsAnswer(sent: seq<Reply>, subId: string, events: seq<Event>, sent': seq<Reply>) {
    && |sent'| == |sent| + |events| + 1 && sent'[..|sent|] == sent
    && (forall i :: 0 <= i < |events| ==> sent'[|sent| + i] == EventReply(subId, events[i]))
    && sent'[|sent| + |events|] == EoseReply(subId)
  }

  lemma StreamIsAnswer(cfg: Config, rules: Rules, now: int, sent: seq<Reply>, subId: string, result: seq<Event>)
    ensures IsAnswer(sent, subId, Take(Unexpired(result, rules, now), Cap(cfg)),
                     sent + AnswerStream(cfg, rules, now, subId, result))
  {
  }

  /** The request in hand of the reader that responds. */
  function Request(w: World, st: Move): seq<Filter>
    requires st.Respond? && st.p in w.peers && w.peers[st.p].phase.Answering?
  {
    w.peers[st.p].phase.filters
  }

  ghost predicate Responds(cfg: Config, rules: Rules, w: World, st: Move, w': World) {
    st.Respond? && Next(cfg, rules, w, st, w')
  }

  /** The step answers its request with these events. */
  ghost predicate AnswersWith(w: World, st: Move, w': World, events: seq<Event>)
    requires st.Respond? && st.p in w.peers && w.peers[st.p].phase.Answering?
  {
    st.p in w'.peers && IsAnswer(w.peers[st.p].session.sent, w.peers[st.p].phase.subId, events, w'.peers[st.p].session.sent)
  }

  lemma Responded(cfg: Config, rules: Rules, w: World, st: Move, w': World) returns (result: seq<Event>)
    requires Responds(cfg, rules, w, st, w')
    ensures LimitOk(Request(w, st)) && QueryResult(w.store, rules, Request(w, st), result)
    ensures AnswersWith(w, st, w', Take(Unexpired(result, rules, st.now), Cap(cfg)))
    ensures forall e :: e in Take(Unexpired(result, rules, st.now), Cap(cfg)) ==> e in result && !rules.expired(e, st.now)
  {
    var peer := w.peers[st.p];
    result :| QueryResult(w.store, rules, peer.phase.filters, result)
      && w' == w.(peers := w.peers[st.p := Peer(Answered(cfg, rules, st.now, peer.session, peer.phase.subId, result), Idle)]);
    StreamIsAnswer(cfg, rules, st.now, peer.session.sent, peer.phase.subId, result);
    KeptMembers(result, e => !rules.expired(e, st.now));
    PrefixKeeps(Unexpired(result, rules, st.now), Take(Unexpired(result, rules, st.now), Cap(cfg)), CreatedAt);
  }

  /**
    On the regular path a REQ is answered by at most maxEventsPerREQ events, newest
    first, each once, live, unexpired and accepted by a filter, none left out being newer,
    then one end mark.
   */
  lemma RequestAnswer(cfg: Config, rules: Rules, w: World, st: Move, w': World) returns (events: seq<Event>)
    requires Responds(cfg, rules, w, st, w') && NamesNoChannel(Request(w, st)) && !Searches(Request(w, st))
    ensures AnswersWith(w, st, w', events)
    ensures |events| <= (if cfg.maxEventsPerREQ > 0 then cfg.maxEventsPerREQ else 0)
    ensures NoDuplicates(events) && Descending(events, CreatedAt)
    ensures var filters := Request(w, st);
            && (forall e :: e in events ==> e in Live(w.store) && AcceptedBySome(filters, e) && !rules.expired(e, st.now))
            && ((filters == [] || filters[0].limit.None?) && |events| < cfg.maxEventsPerREQ ==>
                  forall e :: e in Matching(w.store, filters) && !rules.expired(e, st.now) ==> e in events)
            && (forall e, x :: e in Matching(w.store, filters) && !rules.expired(e, st.now) && e !in events && x in events ==>
                  e.createdAt <= x.createdAt)
  {
    NoChannelNamed(Request(w, st));
    var result := Responded(cfg, rules, w, st, w');
    StreamContents(rules, st.now, w.store, Request(w, st), result, Cap(cfg));
    events := Take(Unexpired(result, rules, st.now), Cap(cfg));
  }

  /** On the plain and the search path an answer holds no tombstoned event. */
  lemma AnswersSpareTombstones(cfg: Config, rules: Rules, w: World, st: Move, w': World) returns (events: seq<Event>)
    requires WorldOk(cfg, rules, w) && Responds(cfg, rules, w, st, w') && NamesNoChannel(Request(w, st))
    ensures AnswersWith(w, st, w', events)
    ensures forall e :: e in events ==> e.id in w.store.events && e.id !in w.store.deleted
  {
    NoChannelNamed(Request(w, st));
    var result := Responded(cfg, rules, w, st, w');
    ResultSparesTombstones(w.store, rules, Request(w, st), result);
    events := Take(Unexpired(result, rules, st.now), Cap(cfg));
  }

  /** A request with a search text is answered with live events only that some filter and its words accept. */
  lemma SearchRequestAnswer(cfg: Config, rules: Rules, w: World, st: Move, w': World) returns (events: seq<Event>)
    requires Responds(cfg, rules, w, st, w') && NamesNoChannel(Request(w, st)) && Searches(Request(w, st))
    ensures AnswersWith(w, st, w', events)
    ensures forall e :: e in events ==>
              e in Live(w.store) && !rules.expired(e, st.now) && SomeFinds(Request(w, st), e, rules.folding)
    ensures var filters := Request(w, st);
            filters[0].limit.None? && |events| < cfg.maxEventsPerREQ ==>
              forall e :: e in Live(w.store) && !rules.expired(e, st.now) && SomeFinds(filters, e, rules.folding) ==> e in events
  {
    NoChannelNamed(Request(w, st));
    var result := Responded(cfg, rules, w, st, w');
    SearchIsLive(w.store, Request(w, st), rules.folding, result);
    events := Take(Unexpired(result, rules, st.now), Cap(cfg));
    if Request(w, st)[0].limit.None? {
      SearchIsComplete(w.store, Request(w, st), rules.folding, result);
      KeptMembers(result, e => !rules.expired(e, st.now));
    }
  }

  /** A request that names a channel is answered from the first one named, within the bounds and the kinds asked for. */
  lemma ChannelRequestAnswer(cfg: Config, rules: Rules, w: World, st: Move, w': World, i: nat) returns (events: seq<Event>)
    requires Responds(cfg, rules, w, st, w') && i < |Request(w, st)| && NamesAChannel(Request(w, st)[i])
    requires forall k :: 0 <= k < i ==> !NamesAChannel(Request(w, st)[k])
    ensures AnswersWith(w, st, w', events)
    ensures forall e :: e in events ==> !rules.expired(e, st.now)
    ensures forall e :: e in events ==> ChannelWants(w.store, Request(w, st)[i].tags["channel_id"][0], Request(w, st), e)
  {
    ChannelIsNamedFirst(Request(w, st), i);
    var result := Responded(cfg, rules, w, st, w');
    ChannelMembers(w.store, QueriedChannel(Request(w, st)), Request(w, st), result);
    events := Take(Unexpired(result, rules, st.now), Cap(cfg));
  }

  lemma ResultSparesTombstones(m: Memory, rules: Rules, filters: seq<Filter>, result: seq<Event>)
    requires WellFormed(m) && LimitOk(filters) && QueriedChannel(filters) == "" && QueryResult(m, rules, filters, result)
    ensures forall e :: e in result ==> e.id in m.events && e.id !in m.deleted
  {
    if HasSearch(filters) {
      SearchIsLive(m, filters, rules.folding, result);
    } else {
      AnswersAreNewest(m, filters, result);
    }
    forall e | e in Live(m) ensures e.id in m.events && e.id !in m.deleted {}
  }

  /** On the channel path the answers to a request are the same whatever has been tombstoned. */
  lemma ChannelAnswersShowTombstoned(cfg: Config, rules: Rules, w: World, st: Move, w': World, ids: set<string>)
    requires st.Respond? && st.p in w.peers && w.peers[st.p].phase.Answering?
    requires QueriedChannel(w.peers[st.p].phase.filters) != ""
    ensures Next(cfg, rules, w, st, w') <==>
            Next(cfg, rules, w.(store := Tombstoned(w.store, ids)), st, w'.(store := Tombstoned(w.store, ids)))
            && w'.store == w.store
  {
    var filters := w.peers[st.p].phase.filters;
    forall result
      ensures ChannelResult(Tombstoned(w.store, ids), QueriedChannel(filters), filters, result)
              <==> ChannelResult(w.store, QueriedChannel(filters), filters, result)
    {
      ChannelIgnoresTombstones(w.store, ids, QueriedChannel(filters), filters, result);
    }
  }
}
