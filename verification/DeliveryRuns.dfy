/**
  Where the copies of an event in a client's log come from, counted over whole runs:
  every broadcast started while the client is connected puts one copy in flight, every
  copy that lands is queued at most once, and the rest answers requests.
 */
module DeliveryRuns {
  import opened Events
  import opened MemoryStore
  import opened Protocol
  import opened Relay
  import opened RelayRuns
  import opened EventRuns

  // ---------- what is counted ----------

  predicate IsCopy(r: Reply, e: Event) {
    r.EventReply? && r.evt == e
  }

  function Copies(sent: seq<Reply>, e: Event): nat {
    if sent == [] then 0
    else Copies(sent[..|sent| - 1], e) + if IsCopy(sent[|sent| - 1], e) then 1 else 0
  }

  /** Copies in the log of p; none before it is connected. */
  function Held(w: World, p: nat, e: Event): nat {
    if p in w.peers then Copies(w.peers[p].session.sent, e) else 0
  }

  /** Broadcasts of e started while p was connected. */
  ghost function Launches(ws: seq<World>, sts: seq<Move>, i: nat, p: nat, e: Event): nat
    requires |ws| == |sts| + 1 && i <= |sts|
  {
    if i == 0 then 0
    else Launches(ws, sts, i - 1, p, e)
         + if p in ws[i - 1].peers && sts[i - 1].Publish? && LaunchedAt(ws, sts, i - 1, sts[i - 1].p, e) then 1 else 0
  }

  predicate Lands(st: Move, p: nat, e: Event) {
    st.Arrive? && st.flight == Flight(p, e)
  }

  /** Copies of e that reached p. */
  function Landed(sts: seq<Move>, i: nat, p: nat, e: Event): nat
    requires i <= |sts|
  {
    if i == 0 then 0 else Landed(sts, i - 1, p, e) + if Lands(sts[i - 1], p, e) then 1 else 0
  }

  /** By how much the log grew when copies landed. */
  function Queued(ws: seq<World>, sts: seq<Move>, i: nat, p: nat, e: Event): int
    requires |ws| == |sts| + 1 && i <= |sts|
  {
    if i == 0 then 0
    else Queued(ws, sts, i - 1, p, e)
         + if Lands(sts[i - 1], p, e) then Held(ws[i], p, e) - Held(ws[i - 1], p, e) else 0
  }

  /** By how much the log grew when requests were answered. */
  function Replied(ws: seq<World>, sts: seq<Move>, i: nat, p: nat, e: Event): int
    requires |ws| == |sts| + 1 && i <= |sts|
  {
    if i == 0 then 0
    else Replied(ws, sts, i - 1, p, e)
         + if sts[i - 1].Respond? && sts[i - 1].p == p then Held(ws[i], p, e) - Held(ws[i - 1], p, e) else 0
  }

  // ---------- flights ----------

  /** A broadcast puts one copy for each connected client in flight. */
  lemma LaunchCounts(peers: set<nat>, e: Event, f: Flight<nat>)
    ensures Launched(peers, e)[f] == if f.evt == e && f.peer in peers then 1 else 0
  {
    var flights := set p | p in peers :: Flight(p, e);
    assert multiset(flights)[f] == if f in flights then 1 else 0;
  }

  lemma FlightStep(cfg: Config, rules: Rules, w: World, st: Move, w': World, p: nat, e: Event)
    requires Next(cfg, rules, w, st, w')
    ensures var launches := p in w.peers && st.Publish? && w.peers[st.p].phase == Publishing(e);
            w'.inFlight[Flight(p, e)] ==
              w.inFlight[Flight(p, e)] + (if launches then 1 else 0) - (if Lands(st, p, e) then 1 else 0)
  {
    if st.Publish? {
      LaunchCounts(w.peers.Keys, w.peers[st.p].phase.evt, Flight(p, e));
    }
  }

  /** Every copy launched for a client has landed or is still in flight. */
  lemma {:induction false} FlightsAreConserved(cfg: Config, rules: Rules, ws: seq<World>, sts: seq<Move>,
                                               i: nat, p: nat, e: Event)
    requires IsRun(cfg, rules, ws, sts) && i <= |sts|
    ensures Launches(ws, sts, i, p, e) == Landed(sts, i, p, e) + ws[i].inFlight[Flight(p, e)]
  {
    if i == 0 {
    } else {
      FlightsAreConserved(cfg, rules, ws, sts, i - 1, p, e);
      assert MoveAt(cfg, rules, ws, sts, i - 1);
      FlightStep(cfg, rules, ws[i - 1], sts[i - 1], ws[i], p, e);
    }
  }

  // ---------- the log ----------

  lemma SayCopies(sent: seq<Reply>, r: Reply, e: Event)
    ensures Copies(sent + [r], e) == Copies(sent, e) + if IsCopy(r, e) then 1 else 0
  {
    assert (sent + [r])[..|sent|] == sent;
  }

  /** A copy that lands is queued once or not at all. */
  lemma LandingCopies(cfg: Config, rules: Rules, w: World, st: Move, w': World, p: nat, e: Event)
    requires st.Arrive? && Next(cfg, rules, w, st, w') && p in w.peers
    ensures 0 <= Held(w', p, e) - Held(w, p, e) <= if Lands(st, p, e) then 1 else 0
  {
    var s, f := w.peers[p].session, st.flight;
    if f.peer == p && ShouldReceive(rules, st.now, s.subscriptions, f.evt) {
      var subId :| MatchedBy(s.subscriptions, subId, f.evt) && w'.peers[p].session == Say(s, EventReply(subId, f.evt));
      SayCopies(s.sent, EventReply(subId, f.evt), e);
    }
  }

  lemma AnsweredCopies(rules: Rules, s: Session, e: Event, s': Session, x: Event)
    requires OnlyAnswers(rules, s, x, s')
    ensures Copies(s'.sent, e) == Copies(s.sent, e)
  {
    if s'.sent != s.sent {
      assert s'.sent == s.sent + [s'.sent[|s.sent|]];
      SayCopies(s.sent, s'.sent[|s.sent|], e);
    }
  }

  /** Receiving a message queues no event. */
  lemma ReceivingCopies(cfg: Config, rules: Rules, w: World, st: Move, w': World, e: Event)
    requires st.Receive? && Next(cfg, rules, w, st, w')
    ensures Held(w', st.p, e) == Held(w, st.p, e)
  {
    var s := w.peers[st.p].session;
    var a := Admitted(rules.valid, s, st.frame, st.rate);
    AdmittedIsValid(rules.valid, s, st.frame, st.rate);
    if w'.peers[st.p].session != s {
      ReactedCopies(cfg, rules, st.now, w.store, s, a, e);
    }
  }

  lemma ReactedCopies(cfg: Config, rules: Rules, now: int, m: Memory, s: Session, a: Action, e: Event)
    requires !a.Subscribe? && !(a.Answer? && a.reply.EventReply?)
    ensures Copies(Reacted(cfg, rules, now, m, s, a).session.sent, e) == Copies(s.sent, e)
  {
    match a
    case Answer(reply) => SayCopies(s.sent, reply, e);
    case Handle(x) =>
      var h := Handled(cfg, rules, now, m, s, x);
      HandledSession(cfg, rules, now, m, s, x);
      AnsweredCopies(rules, s, e, h.session, x);
      SayCopies(h.session.sent, if h.failed then OkReply(x.id, false, HandlerFailed) else Accept(x), e);
    case Unsubscribe(subId) =>
    case Count(id, filters) =>
      SayCopies(s.sent, ClosedReply(id, NoFilters), e);
      SayCopies(s.sent + [ClosedReply(id, NoFilters)], NoticeReply(HandlerFailed), e);
      SayCopies(s.sent, CountReply(id, |Matching(m, filters)|), e);
  }

  /** Nor does saving, filing or publishing one. */
  lemma EventMoveCopies(cfg: Config, rules: Rules, w: World, st: Move, w': World, e: Event)
    requires (st.Store? || st.File? || st.Publish?) && Next(cfg, rules, w, st, w')
    ensures Held(w', st.p, e) == Held(w, st.p, e)
  {
    var sent, x := w.peers[st.p].session.sent, w.peers[st.p].phase.evt;
    SayCopies(sent, Accept(x), e);
    SayCopies(sent + [Accept(x)], Accept(x), e);
    SayCopies(sent, OkReply(x.id, false, SaveFailed), e);
    SayCopies(sent + [OkReply(x.id, false, SaveFailed)], OkReply(x.id, false, HandlerFailed), e);
  }

  lemma LogStep(cfg: Config, rules: Rules, w: World, st: Move, w': World, p: nat, e: Event)
    requires WorldOk(cfg, rules, w) && Next(cfg, rules, w, st, w') && p in w'.peers
    ensures Held(w', p, e) != Held(w, p, e) ==> Lands(st, p, e) || (st.Respond? && st.p == p)
    ensures Lands(st, p, e) ==> 0 <= Held(w', p, e) - Held(w, p, e) <= 1
  {
    if st.Arrive? {
      LandingCopies(cfg, rules, w, st, w', p, e);
    } else if st.Receive? && st.p == p {
      ReceivingCopies(cfg, rules, w, st, w', e);
    } else if (st.Store? || st.File? || st.Publish?) && st.p == p {
      EventMoveCopies(cfg, rules, w, st, w', e);
    } else if st.Connect? && st.p == p {
      NewLogIsEmpty(cfg, st.challenge, e);
    }
  }

  lemma NewLogIsEmpty(cfg: Config, challenge: string, e: Event)
    ensures Copies(NewSession(cfg, challenge).sent, e) == 0
  {
    if cfg.requireAuth { SayCopies([], AuthReply(challenge), e); }
  }

  /**
    The copies of an event in the log of a connected client are those queued on landing
    and those sent in answers; at most one is queued for each broadcast of the event
    that was started while the client was connected.
   */
  lemma {:induction false} CopiesAreBroadcasts(cfg: Config, rules: Rules, ws: seq<World>, sts: seq<Move>,
                                               i: nat, p: nat, e: Event)
    requires IsRun(cfg, rules, ws, sts) && i <= |sts| && p in ws[i].peers
    ensures Held(ws[i], p, e) == Queued(ws, sts, i, p, e) + Replied(ws, sts, i, p, e)
    ensures 0 <= Queued(ws, sts, i, p, e) <= Landed(sts, i, p, e) <= Launches(ws, sts, i, p, e)
  {
    FlightsAreConserved(cfg, rules, ws, sts, i, p, e);
    if i == 0 {
    } else {
      LogStepAt(cfg, rules, ws, sts, i - 1, p, e);
      if p in ws[i - 1].peers {
        CopiesAreBroadcasts(cfg, rules, ws, sts, i - 1, p, e);
      } else {
        ConnectionIsNew(cfg, rules, ws, sts, i - 1, p, e);
      }
    }
  }

  /** The counts go up with the log. */
  lemma LogStepAt(cfg: Config, rules: Rules, ws: seq<World>, sts: seq<Move>, i: nat, p: nat, e: Event)
    requires IsRun(cfg, rules, ws, sts) && i < |sts| && p in ws[i + 1].peers
    ensures p in ws[i].peers || p == ws[i].connected
    ensures Held(ws[i + 1], p, e) - Held(ws[i], p, e) ==
            Queued(ws, sts, i + 1, p, e) - Queued(ws, sts, i, p, e) + Replied(ws, sts, i + 1, p, e) - Replied(ws, sts, i, p, e)
    ensures 0 <= Queued(ws, sts, i + 1, p, e) - Queued(ws, sts, i, p, e) <= Landed(sts, i + 1, p, e) - Landed(sts, i, p, e)
  {
    RunKeeps(cfg, rules, ws, sts, i);
    assert MoveAt(cfg, rules, ws, sts, i);
    LogStep(cfg, rules, ws[i], sts[i], ws[i + 1], p, e);
    StillOpenOrNew(cfg, rules, ws[i], sts[i], ws[i + 1], p);
  }

  lemma StillOpenOrNew(cfg: Config, rules: Rules, w: World, st: Move, w': World, p: nat)
    requires Next(cfg, rules, w, st, w') && p in w'.peers
    ensures p in w.peers || p == w.connected
  {
  }

  /** Nothing is counted for a number that has not been given to a connection yet. */
  lemma {:induction false} ConnectionIsNew(cfg: Config, rules: Rules, ws: seq<World>, sts: seq<Move>, i: nat,
                                           p: nat, e: Event)
    requires IsRun(cfg, rules, ws, sts) && i <= |sts| && p >= ws[i].connected
    ensures Queued(ws, sts, i, p, e) == 0 && Replied(ws, sts, i, p, e) == 0 && Held(ws[i], p, e) == 0
  {
    RunKeeps(cfg, rules, ws, sts, i);
    if i == 0 {
    } else {
      ConnectedGrows(cfg, rules, ws, sts, i - 1, i);
      ConnectionIsNew(cfg, rules, ws, sts, i - 1, p, e);
    }
  }
}
