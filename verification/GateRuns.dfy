/**
  From the message to the session: what each kind of message comes to at the gate, that
  a limited or refused message does nothing, and that a subscription once made lasts
  and receives, over whole runs.
 */
module GateRuns {
  import opened Wrappers
  import opened Events
  import opened MemoryStore
  import opened Protocol
  import opened Relay
  import opened RelayRuns
  import RL = RateLimiter

  predicate IsMessage(f: Frame, type_: string) {
    f.Frame? && f.elements != [] && f.elements[0].text == Some(type_)
  }

  /** The gate is open to the session: it is authenticated, or need not be. */
  predicate Passed(s: Session) {
    s.requireAuth ==> s.authenticated
  }

  // ---------- what the gate makes of each message ----------

  /** Of the elements of a REQ or COUNT all after the second are its filters. */
  ghost predicate FiltersOf(f: Frame, filters: seq<Filter>)
    requires f.Frame?
  {
    |f.elements| == |filters| + 2 && forall i :: 0 <= i < |filters| ==> f.elements[i + 2].filter == Some(filters[i])
  }

  lemma {:induction false} FiltersAreParsed(es: seq<Element>, filters: seq<Filter>)
    requires |es| == |filters| && forall i :: 0 <= i < |es| ==> es[i].filter == Some(filters[i])
    ensures ParsedFilters(es) == Some(filters)
  {
    if es == [] {
    } else {
      FiltersAreParsed(es[1..], filters[1..]);
      assert filters == [filters[0]] + filters[1..];
    }
  }

  lemma ElementsAreParsed(f: Frame, filters: seq<Filter>)
    requires f.Frame? && FiltersOf(f, filters)
    ensures ParsedFilters(f.elements[2..]) == Some(filters)
  {
    assert forall i :: 0 <= i < |filters| ==> f.elements[2..][i] == f.elements[i + 2];
    FiltersAreParsed(f.elements[2..], filters);
  }

  /** A REQ subscribes, unless it were the 21st subscription. */
  lemma ReqSubscribes(valid: Event -> bool, s: Session, f: Frame, id: string, filters: seq<Filter>)
    requires IsMessage(f, "REQ") && |f.elements| >= 2 && f.elements[1].text == Some(id) && FiltersOf(f, filters)
    requires Passed(s)
    ensures Admitted(valid, s, f, RL.Allowed) ==
            if id in s.subscriptions || |s.subscriptions| < 20 then Subscribe(id, filters)
            else Answer(ClosedReply(id, TooManySubscriptions))
  {
    ElementsAreParsed(f, filters);
  }

  lemma CountCounts(valid: Event -> bool, s: Session, f: Frame, id: string, filters: seq<Filter>)
    requires IsMessage(f, "COUNT") && |f.elements| >= 3 && f.elements[1].text == Some(id) && FiltersOf(f, filters)
    requires Passed(s)
    ensures Admitted(valid, s, f, RL.Allowed) == Count(id, filters)
  {
    ElementsAreParsed(f, filters);
  }

  /** A CLOSE passes without authentication and whatever the limiter says. */
  lemma CloseAlwaysPasses(valid: Event -> bool, s: Session, f: Frame, rate: RL.Verdict, id: string)
    requires IsMessage(f, "CLOSE") && |f.elements| == 2 && f.elements[1].text == Some(id)
    ensures Admitted(valid, s, f, rate) == Unsubscribe(id)
  {
  }

  /** An EVENT is handled if it is valid, and answered with a refusal if not. */
  lemma EventIsHandled(valid: Event -> bool, s: Session, f: Frame, e: Event)
    requires IsMessage(f, "EVENT") && |f.elements| == 2 && f.elements[1].event == Some(e)
    requires Passed(s) || f.elements[1].kind == Some(22242)
    ensures Admitted(valid, s, f, RL.Allowed) == if valid(e) then Handle(e) else Answer(OkReply(e.id, false, InvalidEvent))
  {
  }

  /** A refusal names the request or the event it refuses, if it can be read, in the manner of its type. */
  lemma RefusalsNameTheRequest(valid: Event -> bool, s: Session, f: Frame, rate: RL.Verdict, type_: string)
    requires IsMessage(f, type_) && type_ != "CLOSE"
    requires !(type_ == "EVENT" && |f.elements| >= 2 && f.elements[1].kind == Some(22242))
    ensures var a, id := Admitted(valid, s, f, rate), if |f.elements| >= 2 then f.elements[1].text else None;
            var request := (type_ == "REQ" || type_ == "COUNT") && id.Some?;
            && (!Passed(s) ==>
                  a == Answer(if request then ClosedReply(id.value, AuthRequired)
                              else if type_ == "EVENT" && |f.elements| >= 2 && f.elements[1].id.Some? then
                                OkReply(f.elements[1].id.value, false, AuthRequired)
                              else NoticeReply(AuthRequired)))
            && (Passed(s) && rate != RL.Allowed ==>
                  a == Answer(if request then ClosedReply(id.value, RateLimited(rate)) else NoticeReply(RateLimited(rate))))
  {
  }

  /** A connection begins without subscriptions, and is sent the challenge exactly if authentication is required. */
  lemma ConnectionBegins(cfg: Config, rules: Rules, w: World, st: Move, w': World)
    requires st.Connect? && Next(cfg, rules, w, st, w')
    ensures st.p in w'.peers && w'.peers[st.p].phase.Idle?
    ensures var s := w'.peers[st.p].session;
            && s.subscriptions == map[] && !s.authenticated && (s.requireAuth <==> cfg.requireAuth)
            && s.sent == (if cfg.requireAuth then [AuthReply(st.challenge)] else [])
            && (cfg.requireAuth ==> s.authChallenge == st.challenge)
  {
  }

  // ---------- a limited message does nothing ----------

  /** The reader's session is as before, but for one reply that is neither an event nor a count. */
  ghost predicate OnlyReplied(w: World, p: nat, w': World)
    requires p in w.peers
  {
    exists r: Reply :: !r.EventReply? && !r.CountReply?
      && w' == w.(peers := w.peers[p := w.peers[p].(session := w.peers[p].session.(sent := w.peers[p].session.sent + [r]))])
  }

  /** A message the limiter refuses, other than a CLOSE. */
  ghost predicate IsLimited(st: Move) {
    st.Receive? && st.rate != RL.Allowed && !IsMessage(st.frame, "CLOSE")
  }

  lemma LimitedDoesNothing(cfg: Config, rules: Rules, w: World, st: Move, w': World)
    requires IsLimited(st) && Next(cfg, rules, w, st, w')
    ensures st.p in w.peers && w.peers[st.p].phase.Idle? && OnlyReplied(w, st.p, w')
  {
    var s := w.peers[st.p].session;
    var a := Admitted(rules.valid, s, st.frame, st.rate);
    LimitedIsAnswered(rules.valid, s, st.frame, st.rate);
    assert w'.peers[st.p].session.sent == s.sent + [a.reply];
  }

  lemma LimitedIsAnswered(valid: Event -> bool, s: Session, f: Frame, rate: RL.Verdict)
    requires rate != RL.Allowed && !IsMessage(f, "CLOSE")
    ensures var a := Admitted(valid, s, f, rate); a.Answer? && !a.reply.EventReply? && !a.reply.CountReply?
  {
  }

  /** From step j to step i the limiter refused every message of connection p. */
  ghost predicate LimitedThroughout(sts: seq<Move>, p: nat, j: nat, i: nat)
    requires i <= |sts|
  {
    forall l :: j <= l < i && sts[l].Receive? && sts[l].p == p ==> IsLimited(sts[l])
  }

  /**
    Over whole runs: as long as the limiter refuses its messages, an idle connection stays
    idle, keeps its authentication and its subscriptions, and none of its steps changes
    the store or starts a broadcast.
   */
  lemma {:induction false} LimitedReaderDoesNothing(cfg: Config, rules: Rules, ws: seq<World>, sts: seq<Move>,
                                                    j: nat, i: nat, p: nat)
    requires IsRun(cfg, rules, ws, sts) && j <= i < |ws| && LimitedThroughout(sts, p, j, i)
    requires p in ws[j].peers && ws[j].peers[p].phase.Idle? && p in ws[i].peers
    ensures ws[i].peers[p].phase.Idle?
    ensures var s, s' := ws[j].peers[p].session, ws[i].peers[p].session; s' == s.(sent := s'.sent)
    ensures i < |sts| && IsReaderMove(sts[i], p) && (sts[i].Receive? ==> IsLimited(sts[i])) ==>
              ws[i + 1].store == ws[i].store && ws[i + 1].inFlight == ws[i].inFlight
  {
    if i > j {
      StaysOpen(cfg, rules, ws, sts, j, i - 1, i, p);
      LimitedReaderDoesNothing(cfg, rules, ws, sts, j, i - 1, p);
      assert MoveAt(cfg, rules, ws, sts, i - 1);
      RunKeeps(cfg, rules, ws, sts, i - 1);
      if !IsReaderMove(sts[i - 1], p) {
        OthersDoNotTouch(cfg, rules, ws[i - 1], sts[i - 1], ws[i], p);
      } else {
        LimitedDoesNothing(cfg, rules, ws[i - 1], sts[i - 1], ws[i]);
      }
    }
    if i < |sts| && IsLimited(sts[i]) && sts[i].p == p {
      assert MoveAt(cfg, rules, ws, sts, i);
      LimitedDoesNothing(cfg, rules, ws[i], sts[i], ws[i + 1]);
    } else if i < |sts| {
      assert MoveAt(cfg, rules, ws, sts, i);
    }
  }

  // ---------- subscriptions ----------

  /** Inserting maps the id to the filters of the request, and keeps the other subscriptions. */
  lemma InsertSubscribes(cfg: Config, rules: Rules, w: World, st: Move, w': World)
    requires st.Insert? && Next(cfg, rules, w, st, w')
    ensures st.p in w'.peers && w.peers[st.p].phase.Inserting?
    ensures var s, s' := w.peers[st.p].session, w'.peers[st.p].session;
            var id, filters := w.peers[st.p].phase.subId, w.peers[st.p].phase.filters;
            && s' == s.(subscriptions := s'.subscriptions)
            && id in s'.subscriptions && s'.subscriptions[id] == filters
            && (forall x :: x != id ==> (x in s'.subscriptions <==> x in s.subscriptions))
            && (forall x :: x != id && x in s.subscriptions ==> s'.subscriptions[x] == s.subscriptions[x])
  {
  }

  /** Answering drops the subscription of the request if the relay is so configured, and no other one. */
  lemma RespondKeepsSubscriptions(cfg: Config, rules: Rules, w: World, st: Move, w': World)
    requires st.Respond? && Next(cfg, rules, w, st, w')
    ensures st.p in w'.peers && w.peers[st.p].phase.Answering?
    ensures var subs, subs' := w.peers[st.p].session.subscriptions, w'.peers[st.p].session.subscriptions;
            && (!cfg.closeAfterEOSE ==> subs' == subs)
            && (cfg.closeAfterEOSE ==> w.peers[st.p].phase.subId !in subs')
            && (forall x :: x in subs' ==> x in subs && subs'[x] == subs[x])
            && (forall x :: x in subs && x != w.peers[st.p].phase.subId ==> x in subs')
  {
  }

  /** A CLOSE drops exactly its subscription, unanswered. */
  lemma CloseUnsubscribes(cfg: Config, rules: Rules, w: World, st: Move, w': World, id: string)
    requires st.Receive? && Next(cfg, rules, w, st, w')
    requires IsMessage(st.frame, "CLOSE") && |st.frame.elements| == 2 && st.frame.elements[1].text == Some(id)
    ensures st.p in w'.peers && w'.store == w.store && w'.inFlight == w.inFlight
    ensures var s, s' := w.peers[st.p].session, w'.peers[st.p].session;
            && s' == s.(subscriptions := s'.subscriptions) && id !in s'.subscriptions
            && (forall x :: x in s.subscriptions && x != id ==>
                  x in s'.subscriptions && s'.subscriptions[x] == s.subscriptions[x])
            && (forall x :: x in s'.subscriptions ==> x in s.subscriptions)
  {
    CloseAlwaysPasses(rules.valid, w.peers[st.p].session, st.frame, st.rate, id);
  }

  /** A COUNT is answered with the number of live events some filter accepts. */
  lemma CountAnswers(cfg: Config, rules: Rules, w: World, st: Move, w': World, id: string, filters: seq<Filter>)
    requires st.Receive? && st.rate.Allowed? && Next(cfg, rules, w, st, w') && Passed(w.peers[st.p].session)
    requires IsMessage(st.frame, "COUNT") && |st.frame.elements| >= 3 && st.frame.elements[1].text == Some(id)
    requires FiltersOf(st.frame, filters)
    ensures var matching := set e | e in Live(w.store) && exists i :: 0 <= i < |filters| && Accepts(filters[i], e);
            w' == w.(peers := w.peers[st.p := Peer(Say(w.peers[st.p].session, CountReply(id, |matching|)), Idle)])
  {
    CountCounts(rules.valid, w.peers[st.p].session, st.frame, id, filters);
    assert Matching(w.store, filters) == set e | e in Live(w.store) && exists i :: 0 <= i < |filters| && Accepts(filters[i], e);
  }

  /** A CLOSE or a REQ of connection p for this subscription. */
  ghost predicate Resubscribes(st: Move, p: nat, id: string) {
    st.Receive? && st.p == p && (IsMessage(st.frame, "CLOSE") || IsMessage(st.frame, "REQ"))
    && |st.frame.elements| >= 2 && st.frame.elements[1].text == Some(id)
  }

  ghost predicate Undisturbed(sts: seq<Move>, p: nat, id: string, j: nat, i: nat)
    requires i <= |sts|
  {
    forall l :: j < l < i ==> !Resubscribes(sts[l], p, id)
  }

  /** The connection holds the subscription, and is not about to replace it. */
  predicate Subscribes(peer: Peer, id: string, filters: seq<Filter>) {
    && id in peer.session.subscriptions && peer.session.subscriptions[id] == filters
    && !(peer.phase.Inserting? && peer.phase.subId == id)
  }

  lemma GateSubscriptions(valid: Event -> bool, s: Session, f: Frame, rate: RL.Verdict)
    ensures var a := Admitted(valid, s, f, rate);
            && (a.Unsubscribe? ==> IsMessage(f, "CLOSE") && |f.elements| >= 2 && f.elements[1].text == Some(a.subId))
            && (a.Subscribe? ==> IsMessage(f, "REQ") && |f.elements| >= 2 && f.elements[1].text == Some(a.subId))
  {
  }

  lemma SubscriptionStep(cfg: Config, rules: Rules, w: World, st: Move, w': World, p: nat, id: string, filters: seq<Filter>)
    requires WorldOk(cfg, rules, w) && Next(cfg, rules, w, st, w') && p in w.peers && p in w'.peers
    requires !cfg.closeAfterEOSE && Subscribes(w.peers[p], id, filters) && !Resubscribes(st, p, id)
    ensures Subscribes(w'.peers[p], id, filters)
  {
    if !IsReaderMove(st, p) {
      OthersDoNotTouch(cfg, rules, w, st, w', p);
    } else if st.Receive? {
      ReceivingKeepsSubscription(cfg, rules, w, st, w', id, filters);
    } else if st.Respond? {
      RespondKeepsSubscriptions(cfg, rules, w, st, w');
    }
  }

  lemma ReceivingKeepsSubscription(cfg: Config, rules: Rules, w: World, st: Move, w': World, id: string, filters: seq<Filter>)
    requires st.Receive? && ReceiveStep(cfg, rules, w, st, w')
    requires Subscribes(w.peers[st.p], id, filters) && !Resubscribes(st, st.p, id)
    ensures Subscribes(w'.peers[st.p], id, filters)
  {
    var s := w.peers[st.p].session;
    var a := Admitted(rules.valid, s, st.frame, st.rate);
    GateSubscriptions(rules.valid, s, st.frame, st.rate);
    AdmittedIsValid(rules.valid, s, st.frame, st.rate);
    if a.Handle? {
      HandledSession(cfg, rules, st.now, w.store, s, a.evt);
    }
  }

  /**
    Where subscriptions are not closed after the stored events, one that has been made
    lasts until a CLOSE or another REQ of its id, or the end of the connection.
   */
  lemma {:induction false} SubscriptionLasts(cfg: Config, rules: Rules, ws: seq<World>, sts: seq<Move>,
                                             j: nat, i: nat, p: nat, id: string, filters: seq<Filter>)
    requires IsRun(cfg, rules, ws, sts) && j < i <= |sts| && !cfg.closeAfterEOSE
    requires sts[j] == Insert(p) && p in ws[j].peers && ws[j].peers[p].phase == Inserting(id, filters)
    requires Undisturbed(sts, p, id, j, i) && p in ws[i].peers
    ensures Subscribes(ws[i].peers[p], id, filters)
  {
    if i == j + 1 {
      assert MoveAt(cfg, rules, ws, sts, j);
      InsertSubscribes(cfg, rules, ws[j], sts[j], ws[i]);
    } else {
      StaysOpen(cfg, rules, ws, sts, j, i - 1, i, p);
      SubscriptionLasts(cfg, rules, ws, sts, j, i - 1, p, id, filters);
      assert MoveAt(cfg, rules, ws, sts, i - 1);
      RunKeeps(cfg, rules, ws, sts, i - 1);
      SubscriptionStep(cfg, rules, ws[i - 1], sts[i - 1], ws[i], p, id, filters);
    }
  }

  // ---------- delivery ----------

  /** Some filter of some subscription lists the value of the event's first p tag. */
  ghost predicate AsksForRecipient(subs: Subscriptions, e: Event) {
    exists i, id, k :: 0 <= i < |e.tags| && FirstNamed(e.tags, "p", i) && id in subs && 0 <= k < |subs[id]|
      && "p" in subs[id][k].tags && e.tags[i][1] in subs[id][k].tags["p"]
  }

  ghost predicate SomeFilterAccepts(subs: Subscriptions, e: Event) {
    exists id, k :: id in subs && 0 <= k < |subs[id]| && Accepts(subs[id][k], e)
  }

  /**
    An arriving copy is queued, once, exactly if the event is unexpired, some filter accepts
    it, and, for kind 4, some filter lists its first recipient.
   */
  lemma ArrivalMeans(cfg: Config, rules: Rules, ws: seq<World>, sts: seq<Move>, i: nat)
    requires IsRun(cfg, rules, ws, sts) && i < |sts| && sts[i].Arrive? && sts[i].flight.peer in ws[i].peers
    ensures var p, e := sts[i].flight.peer, sts[i].flight.evt;
            && p in ws[i + 1].peers
            && var s, s' := ws[i].peers[p].session, ws[i + 1].peers[p].session;
            if !rules.expired(e, sts[i].now) && SomeFilterAccepts(s.subscriptions, e)
               && (e.kind == 4 ==> AsksForRecipient(s.subscriptions, e)) then
              exists id :: s' == s.(sent := s.sent + [EventReply(id, e)]) && id in s.subscriptions
                           && exists k :: 0 <= k < |s.subscriptions[id]| && Accepts(s.subscriptions[id][k], e)
            else s' == s
  {
    assert MoveAt(cfg, rules, ws, sts, i);
    var p, e := sts[i].flight.peer, sts[i].flight.evt;
    var s, s' := ws[i].peers[p].session, ws[i + 1].peers[p].session;
    MatchingMeans(s.subscriptions, e);
    RecipientMeans(s.subscriptions, e);
    if ShouldReceive(rules, sts[i].now, s.subscriptions, e) {
      var id :| MatchedBy(s.subscriptions, id, e) && s' == Say(s, EventReply(id, e));
      assert s' == s.(sent := s.sent + [EventReply(id, e)]);
    }
  }

  lemma MatchingMeans(subs: Subscriptions, e: Event)
    ensures (exists id :: MatchedBy(subs, id, e)) <==> SomeFilterAccepts(subs, e)
  {
    if id :| MatchedBy(subs, id, e) {
      var k :| 0 <= k < |subs[id]| && Accepts(subs[id][k], e);
    }
    if SomeFilterAccepts(subs, e) {
      var id, k :| id in subs && 0 <= k < |subs[id]| && Accepts(subs[id][k], e);
      assert MatchedBy(subs, id, e);
    }
  }

  lemma RecipientMeans(subs: Subscriptions, e: Event)
    ensures RecipientTestPasses(subs, e) <==> (e.kind == 4 ==> AsksForRecipient(subs, e))
  {
    var v := FirstTagValue(e.tags, "p");
    if v.Some? {
      var i :| 0 <= i < |e.tags| && FirstNamed(e.tags, "p", i) && e.tags[i][1] == v.value;
      assert forall k :: 0 <= k < |e.tags| && FirstNamed(e.tags, "p", k) ==> k == i;
      if WatchesPubKey(subs, v.value) {
        var id, k :| id in subs && 0 <= k < |subs[id]| && ListsPubKey(subs[id][k], v.value);
        assert AsksForRecipient(subs, e);
      }
      if AsksForRecipient(subs, e) {
        var n, id, k :| 0 <= n < |e.tags| && FirstNamed(e.tags, "p", n) && id in subs && 0 <= k < |subs[id]|
          && "p" in subs[id][k].tags && e.tags[n][1] in subs[id][k].tags["p"];
        assert ListsPubKey(subs[id][k], v.value);
      }
    }
  }

  /** An event published meanwhile that the filters accept reaches the subscriber, once, when its copy lands. */
  lemma SubscriberReceives(cfg: Config, rules: Rules, ws: seq<World>, sts: seq<Move>,
                           j: nat, i: nat, p: nat, id: string, filters: seq<Filter>)
    requires IsRun(cfg, rules, ws, sts) && j < i < |sts| && !cfg.closeAfterEOSE
    requires sts[j] == Insert(p) && p in ws[j].peers && ws[j].peers[p].phase == Inserting(id, filters)
    requires Undisturbed(sts, p, id, j, i) && p in ws[i].peers
    requires sts[i].Arrive? && sts[i].flight.peer == p && !rules.expired(sts[i].flight.evt, sts[i].now)
    requires sts[i].flight.evt.kind != 4 && exists k :: 0 <= k < |filters| && Accepts(filters[k], sts[i].flight.evt)
    ensures p in ws[i + 1].peers
    ensures var s, s' := ws[i].peers[p].session, ws[i + 1].peers[p].session;
            exists x :: s' == s.(sent := s.sent + [EventReply(x, sts[i].flight.evt)])
  {
    SubscriptionLasts(cfg, rules, ws, sts, j, i, p, id, filters);
    var k :| 0 <= k < |filters| && Accepts(filters[k], sts[i].flight.evt);
    assert SomeFilterAccepts(ws[i].peers[p].session.subscriptions, sts[i].flight.evt);
    ArrivalMeans(cfg, rules, ws, sts, i);
  }
}
