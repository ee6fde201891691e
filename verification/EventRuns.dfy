/**
  Saving and deleting interleaved. A reader looks for the id of an event, saves it and
  publishes it in separate steps, so a deletion, or another reader's save of the same
  event, may come in between. What that can lead to is stated exactly.
 */
module EventRuns {
  import opened Events
  import opened MemoryStore
  import opened MemoryRuns
  import opened Deletions
  import opened Protocol
  import opened Relay
  import opened RelayRuns

  /** A valid id determines its event up to the signature, which the hash does not cover. */
  ghost predicate IdBinds(rules: Rules) {
    forall a, b :: rules.valid(a) && rules.valid(b) && a.id == b.id ==> a.(sig := "") == b.(sig := "")
  }

  // ---------- the stages of one event ----------

  /** The reader of p takes an event past its checks, the look for its id included. */
  ghost predicate ReceivedAt(cfg: Config, rules: Rules, ws: seq<World>, sts: seq<Move>, j: nat, p: nat, e: Event)
    requires |ws| == |sts| + 1 && j < |sts|
  {
    sts[j].Receive? && sts[j].p == p && p in ws[j].peers && ws[j].peers[p].phase.Idle? &&
    var s := ws[j].peers[p].session;
    Admitted(rules.valid, s, sts[j].frame, sts[j].rate) == Handle(e)
    && !FirstPhase(cfg, rules, sts[j].now, ws[j].store, s, e).Idle?
  }

  /** It saves the event, and is not refused. */
  ghost predicate StoredAt(ws: seq<World>, sts: seq<Move>, s: nat, p: nat, e: Event)
    requires |ws| == |sts| + 1 && s < |sts|
  {
    sts[s] == Store(p) && p in ws[s].peers && ws[s].peers[p].phase == Storing(e) && e.id !in ws[s].store.deleted
  }

  /** It starts the broadcast of the event. */
  ghost predicate LaunchedAt(ws: seq<World>, sts: seq<Move>, k: nat, p: nat, e: Event)
    requires |ws| == |sts| + 1 && k < |sts|
  {
    sts[k] == Publish(p) && p in ws[k].peers && ws[k].peers[p].phase == Publishing(e)
  }

  /** It takes no other message between steps j and i. */
  ghost predicate NoReceive(sts: seq<Move>, p: nat, j: nat, i: nat)
    requires i <= |sts|
  {
    forall l :: j < l < i ==> !(sts[l].Receive? && sts[l].p == p)
  }

  ghost predicate StoredIn(ws: seq<World>, sts: seq<Move>, j: nat, i: nat, p: nat, e: Event)
    requires |ws| == |sts| + 1 && i <= |sts|
  {
    exists s: nat :: j < s < i && StoredAt(ws, sts, s, p, e)
  }

  ghost predicate LaunchedIn(ws: seq<World>, sts: seq<Move>, j: nat, i: nat, p: nat, e: Event)
    requires |ws| == |sts| + 1 && i <= |sts|
  {
    exists k: nat :: j < k < i && LaunchedAt(ws, sts, k, p, e)
  }

  lemma OneStepMore(ws: seq<World>, sts: seq<Move>, j: nat, i: nat, p: nat, e: Event)
    requires |ws| == |sts| + 1 && j < i < |sts|
    ensures StoredIn(ws, sts, j, i + 1, p, e) <==> StoredIn(ws, sts, j, i, p, e) || StoredAt(ws, sts, i, p, e)
    ensures LaunchedIn(ws, sts, j, i + 1, p, e) <==> LaunchedIn(ws, sts, j, i, p, e) || LaunchedAt(ws, sts, i, p, e)
  {
    if StoredIn(ws, sts, j, i, p, e) {
      var s: nat :| j < s < i && StoredAt(ws, sts, s, p, e);
      assert StoredAt(ws, sts, s, p, e) && s < i + 1;
    }
    if LaunchedIn(ws, sts, j, i, p, e) {
      var k: nat :| j < k < i && LaunchedAt(ws, sts, k, p, e);
      assert LaunchedAt(ws, sts, k, p, e) && k < i + 1;
    }
  }

  /** How far the reader of p has come at step i with the event it received at step j. */
  ghost predicate Progress(ws: seq<World>, sts: seq<Move>, j: nat, i: nat, p: nat, e: Event)
    requires |ws| == |sts| + 1 && i <= |sts|
  {
    var stored, launched := StoredIn(ws, sts, j, i, p, e), LaunchedIn(ws, sts, j, i, p, e);
    p in ws[i].peers &&
    match ws[i].peers[p].phase
    case Storing(x) => x == e && !IsEphemeral(e.kind) && !stored && !launched
    case Filing(x) => x == e && !IsEphemeral(e.kind) && stored && !launched
    case Publishing(x) => x == e && (IsEphemeral(e.kind) || stored) && !launched
    case Idle => launched <==> IsEphemeral(e.kind) || stored
    case _ => false
  }

  lemma Begins(cfg: Config, rules: Rules, ws: seq<World>, sts: seq<Move>, j: nat, p: nat, e: Event)
    requires IsRun(cfg, rules, ws, sts) && j < |sts| && ReceivedAt(cfg, rules, ws, sts, j, p, e)
    ensures Progress(ws, sts, j, j + 1, p, e)
  {
    assert MoveAt(cfg, rules, ws, sts, j);
    PassesChecks(cfg, rules, sts[j].now, ws[j].store, ws[j].peers[p].session, e);
  }

  lemma Proceeds(cfg: Config, rules: Rules, ws: seq<World>, sts: seq<Move>, j: nat, i: nat, p: nat, e: Event)
    requires IsRun(cfg, rules, ws, sts) && j < i < |sts| && Progress(ws, sts, j, i, p, e)
    requires !(sts[i].Receive? && sts[i].p == p) && p in ws[i + 1].peers
    ensures Progress(ws, sts, j, i + 1, p, e)
  {
    OneStepMore(ws, sts, j, i, p, e);
    assert MoveAt(cfg, rules, ws, sts, i);
    if IsReaderMove(sts[i], p) {
      ReaderProceeds(cfg, rules, ws[i], sts[i], ws[i + 1], p);
    } else {
      RunKeeps(cfg, rules, ws, sts, i);
      OthersDoNotTouch(cfg, rules, ws[i], sts[i], ws[i + 1], p);
    }
  }

  /** The phase after each step of the reader itself. */
  lemma ReaderProceeds(cfg: Config, rules: Rules, w: World, st: Move, w': World, p: nat)
    requires Next(cfg, rules, w, st, w') && IsReaderMove(st, p) && !st.Receive?
    ensures p in w.peers && p in w'.peers
    ensures match w.peers[p].phase
            case Storing(e) => st.Store? && w'.peers[p].phase ==
              (if e.id in w.store.deleted then Idle else if IsChannelKind(e.kind) then Filing(e) else Publishing(e))
            case Filing(e) => st.File? && w'.peers[p].phase == Publishing(e)
            case Publishing(_) => st.Publish? && w'.peers[p].phase == Idle
            case Inserting(subId, filters) => st.Insert? && w'.peers[p].phase == Answering(subId, filters)
            case Answering(_, _) => st.Respond? && w'.peers[p].phase == Idle
            case Idle => false
  {
  }

  lemma {:induction false} Handling(cfg: Config, rules: Rules, ws: seq<World>, sts: seq<Move>, j: nat, i: nat,
                                    p: nat, e: Event)
    requires IsRun(cfg, rules, ws, sts) && j < i <= |sts| && ReceivedAt(cfg, rules, ws, sts, j, p, e)
    requires NoReceive(sts, p, j, i) && p in ws[i].peers
    ensures Progress(ws, sts, j, i, p, e)
  {
    if i == j + 1 {
      Begins(cfg, rules, ws, sts, j, p, e);
    } else {
      StaysOpen(cfg, rules, ws, sts, j, i - 1, i, p);
      Handling(cfg, rules, ws, sts, j, i - 1, p, e);
      Proceeds(cfg, rules, ws, sts, j, i - 1, p, e);
    }
  }

  predicate InHand(phase: Phase, e: Event) {
    phase == Storing(e) || phase == Filing(e) || phase == Publishing(e)
  }

  /** An event in hand was received, and no message has been taken since. */
  lemma {:induction false} Received(cfg: Config, rules: Rules, ws: seq<World>, sts: seq<Move>, i: nat, p: nat, e: Event)
    returns (j: nat)
    requires IsRun(cfg, rules, ws, sts) && 0 < i <= |sts| && p in ws[i].peers && InHand(ws[i].peers[p].phase, e)
    ensures j < i && ReceivedAt(cfg, rules, ws, sts, j, p, e) && NoReceive(sts, p, j, i)
  {
    var n := i - 1;
    TakenUpAt(cfg, rules, ws, sts, n, p, e);
    if sts[n].Receive? && sts[n].p == p {
      j := n;
    } else {
      j := Received(cfg, rules, ws, sts, n, p, e);
    }
  }

  lemma TakenUpAt(cfg: Config, rules: Rules, ws: seq<World>, sts: seq<Move>, n: nat, p: nat, e: Event)
    requires IsRun(cfg, rules, ws, sts) && n < |sts| && p in ws[n + 1].peers && InHand(ws[n + 1].peers[p].phase, e)
    ensures if sts[n].Receive? && sts[n].p == p then ReceivedAt(cfg, rules, ws, sts, n, p, e)
            else n > 0 && p in ws[n].peers && InHand(ws[n].peers[p].phase, e)
  {
    assert MoveAt(cfg, rules, ws, sts, n);
    RunKeeps(cfg, rules, ws, sts, n);
    TakenUp(cfg, rules, ws[n], sts[n], ws[n + 1], p, e);
  }

  lemma TakenUp(cfg: Config, rules: Rules, w: World, st: Move, w': World, p: nat, e: Event)
    requires WorldOk(cfg, rules, w) && Next(cfg, rules, w, st, w') && p in w'.peers && InHand(w'.peers[p].phase, e)
    ensures p in w.peers
    ensures if st.Receive? && st.p == p then
              var s := w.peers[p].session;
              w.peers[p].phase.Idle? && Admitted(rules.valid, s, st.frame, st.rate) == Handle(e)
              && !FirstPhase(cfg, rules, st.now, w.store, s, e).Idle?
            else InHand(w.peers[p].phase, e)
  {
    if p !in w.peers {
      NewcomersAreIdle(cfg, rules, w, st, w', p);
      assert false;
    }
    if !IsReaderMove(st, p) {
      OthersDoNotTouch(cfg, rules, w, st, w', p);
    } else if !st.Receive? {
      ReaderProceeds(cfg, rules, w, st, w', p);
    }
  }

  lemma NewcomersAreIdle(cfg: Config, rules: Rules, w: World, st: Move, w': World, p: nat)
    requires Next(cfg, rules, w, st, w') && p !in w.peers && p in w'.peers
    ensures w'.peers[p].phase.Idle?
  {
  }

  // ---------- launches and tombstones ----------

  lemma TombstonedIsNotEphemeral(cfg: Config, rules: Rules, w: World, e: Event)
    requires IdBinds(rules) && StoreOk(rules, w.store) && rules.valid(e) && e.id in w.store.deleted
    ensures !IsEphemeral(e.kind)
  {
    assert w.store.events[e.id].(sig := "") == e.(sig := "");
    assert w.store.events[e.id].(sig := "").kind == e.(sig := "").kind;
  }

  lemma ReceivedIsValid(cfg: Config, rules: Rules, ws: seq<World>, sts: seq<Move>, j: nat, p: nat, e: Event)
    requires IsRun(cfg, rules, ws, sts) && j < |sts| && ReceivedAt(cfg, rules, ws, sts, j, p, e)
    ensures rules.valid(e)
  {
    AdmittedIsValid(rules.valid, ws[j].peers[p].session, sts[j].frame, sts[j].rate);
  }

  lemma SavedBeforeTombstone(cfg: Config, rules: Rules, ws: seq<World>, sts: seq<Move>, t: nat, s: nat, p: nat, e: Event)
    requires IsRun(cfg, rules, ws, sts) && t < |ws| && e.id in ws[t].store.deleted && s < |sts| && StoredAt(ws, sts, s, p, e)
    ensures s < t
  {
    if t <= s { TombstonesStay(cfg, rules, ws, sts, t, s); }
  }

  /**
    An event whose id is tombstoned at some time t is launched by a reader that has
    finished with it if and only if that reader saved it before t.
   */
  lemma LaunchedIffSavedInTime(cfg: Config, rules: Rules, ws: seq<World>, sts: seq<Move>,
                               t: nat, j: nat, k: nat, p: nat, e: Event)
    requires IdBinds(rules) && IsRun(cfg, rules, ws, sts)
    requires j < k <= |sts| && ReceivedAt(cfg, rules, ws, sts, j, p, e) && NoReceive(sts, p, j, k)
    requires p in ws[k].peers && ws[k].peers[p].phase.Idle?
    requires t < |ws| && e.id in ws[t].store.deleted
    ensures LaunchedIn(ws, sts, j, k, p, e) <==> exists s: nat :: j < s < k && s < t && StoredAt(ws, sts, s, p, e)
  {
    Handling(cfg, rules, ws, sts, j, k, p, e);
    ReceivedIsValid(cfg, rules, ws, sts, j, p, e);
    RunKeeps(cfg, rules, ws, sts, t);
    TombstonedIsNotEphemeral(cfg, rules, ws[t], e);
    if StoredIn(ws, sts, j, k, p, e) {
      var s: nat :| j < s < k && StoredAt(ws, sts, s, p, e);
      SavedBeforeTombstone(cfg, rules, ws, sts, t, s, p, e);
    }
  }

  /** An event whose check runs when its id is tombstoned is never launched. */
  lemma CheckedTooLate(cfg: Config, rules: Rules, ws: seq<World>, sts: seq<Move>, j: nat, k: nat, p: nat, e: Event)
    requires IdBinds(rules) && IsRun(cfg, rules, ws, sts)
    requires j < k < |sts| && ReceivedAt(cfg, rules, ws, sts, j, p, e) && NoReceive(sts, p, j, k)
    requires e.id in ws[j].store.deleted
    ensures !LaunchedAt(ws, sts, k, p, e)
  {
    if LaunchedAt(ws, sts, k, p, e) {
      var s := LaunchWasSaved(cfg, rules, ws, sts, j, j, k, p, e);
      assert false;
    }
  }

  /** A launch of a tombstoned id was saved before the tombstone. */
  lemma LaunchWasSaved(cfg: Config, rules: Rules, ws: seq<World>, sts: seq<Move>, t: nat, j: nat, k: nat,
                       p: nat, e: Event)
    returns (s: nat)
    requires IdBinds(rules) && IsRun(cfg, rules, ws, sts)
    requires j < k < |sts| && ReceivedAt(cfg, rules, ws, sts, j, p, e) && NoReceive(sts, p, j, k)
    requires LaunchedAt(ws, sts, k, p, e) && t < |ws| && e.id in ws[t].store.deleted
    ensures j < s < k && s < t && StoredAt(ws, sts, s, p, e)
  {
    Handling(cfg, rules, ws, sts, j, k, p, e);
    ReceivedIsValid(cfg, rules, ws, sts, j, p, e);
    RunKeeps(cfg, rules, ws, sts, t);
    TombstonedIsNotEphemeral(cfg, rules, ws[t], e);
    s :| j < s < k && StoredAt(ws, sts, s, p, e);
    SavedBeforeTombstone(cfg, rules, ws, sts, t, s, p, e);
  }

  /** The launch at step j is of an event its reader had received and saved before step i. */
  ghost predicate SavedBefore(cfg: Config, rules: Rules, ws: seq<World>, sts: seq<Move>, i: nat, j: nat, e: Event)
    requires |ws| == |sts| + 1 && i <= j < |sts|
  {
    exists p: nat, r: nat, s: nat ::
      r < s < i && LaunchedAt(ws, sts, j, p, e) && ReceivedAt(cfg, rules, ws, sts, r, p, e)
      && NoReceive(sts, p, r, j) && StoredAt(ws, sts, s, p, e)
  }

  /**
    Once an id is tombstoned no later GetEvent, QueryEvents or CountEvents shows it, and
    a later step starts a delivery of it only for a reader that had saved it before.
   */
  lemma DeletedForEver(cfg: Config, rules: Rules, ws: seq<World>, sts: seq<Move>, i: nat, j: nat, id: string)
    requires IdBinds(rules) && IsRun(cfg, rules, ws, sts) && i <= j < |ws| && id in ws[i].store.deleted
    ensures Hidden(ws[j].store, id)
    ensures j < |sts| ==> forall f: Flight<nat> ::
              f.evt.id == id && ws[j + 1].inFlight[f] > ws[j].inFlight[f] ==> SavedBefore(cfg, rules, ws, sts, i, j, f.evt)
  {
    TombstonesStay(cfg, rules, ws, sts, i, j);
    RunKeeps(cfg, rules, ws, sts, j);
    TombstonesAreHidden(ws[j].store, id);
    if j < |sts| {
      assert MoveAt(cfg, rules, ws, sts, j);
      forall f: Flight<nat> | f.evt.id == id && ws[j + 1].inFlight[f] > ws[j].inFlight[f]
        ensures SavedBefore(cfg, rules, ws, sts, i, j, f.evt)
      {
        NewFlightIsPublished(cfg, rules, ws[j], sts[j], ws[j + 1], f);
        var p := sts[j].p;
        assert LaunchedAt(ws, sts, j, p, f.evt);
        var r := Received(cfg, rules, ws, sts, j, p, f.evt);
        var s := LaunchWasSaved(cfg, rules, ws, sts, i, r, j, p, f.evt);
      }
    }
  }

  /** Such a launch does happen: the author's deletion may come between saving and publishing. */
  lemma DeletionBeforeLaunch(cfg: Config, rules: Rules, w: World, p: nat, e: Event, st: Move, d: Event, w': World)
    requires p in w.peers && w.peers[p].phase == Publishing(e)
    requires st.Receive? && st.p in w.peers && w.peers[st.p].phase.Idle? && Next(cfg, rules, w, st, w')
    requires Admitted(rules.valid, w.peers[st.p].session, st.frame, st.rate) == Handle(d) && d.kind == DELETION
    requires (cfg.requireAuth ==> w.peers[st.p].session.authenticated) && rules.policyAllows(d) && rules.kindValid(d)
    requires !rules.expired(d, st.now) && Names(d.tags, "e", e.id) && Owns(w.store, d.pubkey, e.id)
    ensures e.id in w'.store.deleted && p in w'.peers && w'.peers[p].phase == Publishing(e)
    ensures Next(cfg, rules, w', Publish(p), AfterPublish(w', p))
    ensures AfterPublish(w', p).inFlight == w'.inFlight + Launched(w'.peers.Keys, e)
  {
  }

  lemma NewFlightIsPublished(cfg: Config, rules: Rules, w: World, st: Move, w': World, f: Flight<nat>)
    requires Next(cfg, rules, w, st, w') && w'.inFlight[f] > w.inFlight[f]
    ensures st.Publish? && st.p in w.peers && w.peers[st.p].phase == Publishing(f.evt)
  {
    if st.Publish? {
      var e := w.peers[st.p].phase.evt;
      assert f in Launched(w.peers.Keys, e);
    }
  }

  // ---------- saving the same event twice ----------

  /** Another reader saves an event of this id between steps j and s, and the save takes effect. */
  ghost predicate SavedByOther(ws: seq<World>, sts: seq<Move>, j: nat, s: nat, p: nat, id: string)
    requires |ws| == |sts| + 1 && s <= |sts|
  {
    exists l: nat, q: nat, x: Event ::
      j < l < s && q != p && StoredAt(ws, sts, l, q, x) && x.id == id && id in ws[l + 1].store.events
  }

  /**
    The save of a replaceable event tombstones that event itself if and only if another
    reader saved it after this reader had looked for its id.
   */
  lemma SaveTombstonesItself(cfg: Config, rules: Rules, ws: seq<World>, sts: seq<Move>, j: nat, s: nat, p: nat, e: Event)
    requires IdBinds(rules) && IsRun(cfg, rules, ws, sts) && IsReplaceable(e.kind)
    requires j < s < |sts| && ReceivedAt(cfg, rules, ws, sts, j, p, e) && NoReceive(sts, p, j, s)
    requires StoredAt(ws, sts, s, p, e)
    ensures e.id in ws[s + 1].store.deleted <==> SavedByOther(ws, sts, j, s, p, e.id)
  {
    assert MoveAt(cfg, rules, ws, sts, s);
    RunKeeps(cfg, rules, ws, sts, s);
    ReceivedIsValid(cfg, rules, ws, sts, j, p, e);
    SaveOfHeld(rules, ws[s].store, e);
    if e.id in ws[s].store.events {
      HeldMeansSavedByOther(cfg, rules, ws, sts, j, s, p, e);
    }
    if SavedByOther(ws, sts, j, s, p, e.id) {
      SavedByOtherIsHeld(cfg, rules, ws, sts, j, s, p, e.id);
    }
  }

  /** A replaceable event that is not tombstoned ends its own life by being saved exactly if it is held already. */
  lemma SaveOfHeld(rules: Rules, m: Memory, e: Event)
    requires IdBinds(rules) && StoreOk(rules, m) && rules.valid(e) && IsReplaceable(e.kind) && e.id !in m.deleted
    ensures e.id in Saved(m, e).deleted <==> e.id in m.events
  {
    if e.id in m.events {
      assert m.events[e.id].(sig := "") == e.(sig := "");
      ResavingTombstones(m, e);
    }
  }

  lemma SavedByOtherIsHeld(cfg: Config, rules: Rules, ws: seq<World>, sts: seq<Move>, j: nat, s: nat, p: nat, id: string)
    requires IsRun(cfg, rules, ws, sts) && s <= |sts| && SavedByOther(ws, sts, j, s, p, id)
    ensures id in ws[s].store.events
  {
    var l: nat, q: nat, x: Event :|
      j < l < s && q != p && StoredAt(ws, sts, l, q, x) && x.id == id && id in ws[l + 1].store.events;
    EventsStay(cfg, rules, ws, sts, l + 1, s);
  }

  lemma HeldMeansSavedByOther(cfg: Config, rules: Rules, ws: seq<World>, sts: seq<Move>, j: nat, s: nat, p: nat, e: Event)
    requires IsRun(cfg, rules, ws, sts) && IsReplaceable(e.kind)
    requires j < s < |sts| && ReceivedAt(cfg, rules, ws, sts, j, p, e) && NoReceive(sts, p, j, s)
    requires StoredAt(ws, sts, s, p, e) && e.id in ws[s].store.events
    ensures SavedByOther(ws, sts, j, s, p, e.id)
  {
    var l := EntersAt(ws, j, s, e.id);
    assert MoveAt(cfg, rules, ws, sts, l);
    RunKeeps(cfg, rules, ws, sts, l);
    EntersBySave(cfg, rules, ws[l], sts[l], ws[l + 1], e.id);
    var q := sts[l].p;
    assert StoredAt(ws, sts, l, q, ws[l].peers[q].phase.evt);
    if q == p {
      Handling(cfg, rules, ws, sts, j, l, p, e);
      Handling(cfg, rules, ws, sts, j, s, p, e);
      assert StoredIn(ws, sts, j, s, p, e);
      assert false;
    }
  }

  lemma {:induction false} EntersAt(ws: seq<World>, j: nat, s: nat, id: string) returns (l: nat)
    requires j < s < |ws| && id !in ws[j].store.events && id in ws[s].store.events
    ensures j <= l < s && id !in ws[l].store.events && id in ws[l + 1].store.events
    decreases s - j
  {
    if id in ws[j + 1].store.events {
      l := j;
    } else {
      l := EntersAt(ws, j + 1, s, id);
    }
  }

  /** Only a save brings an id into the store. */
  lemma EntersBySave(cfg: Config, rules: Rules, w: World, st: Move, w': World, id: string)
    requires WorldOk(cfg, rules, w) && Next(cfg, rules, w, st, w') && id !in w.store.events && id in w'.store.events
    ensures st.Store? && st.p in w.peers && w.peers[st.p].phase.Storing?
    ensures w.peers[st.p].phase.evt.id == id && id !in w.store.deleted
  {
    if st.Receive? {
      ReceiveKeeps(cfg, rules, w, st, w');
    }
  }

  lemma {:induction false} EventsStay(cfg: Config, rules: Rules, ws: seq<World>, sts: seq<Move>, i: nat, j: nat)
    requires IsRun(cfg, rules, ws, sts) && i <= j < |ws|
    ensures ws[i].store.events.Keys <= ws[j].store.events.Keys
  {
    if i == j {
    } else {
      EventsStay(cfg, rules, ws, sts, i, j - 1);
      RunKeeps(cfg, rules, ws, sts, j - 1);
      assert MoveAt(cfg, rules, ws, sts, j - 1);
      StepKeeps(cfg, rules, ws[j - 1], sts[j - 1], ws[j]);
    }
  }

  // ---------- handling in one go ----------

  /** Handled without interruption, an event whose id is tombstoned is not broadcast. */
  lemma HandlingNeverRevives(cfg: Config, rules: Rules, now: int, m: Memory, s: Session, e: Event)
    requires IdBinds(rules) && StoreOk(rules, m) && rules.valid(e)
    ensures Handled(cfg, rules, now, m, s, e).broadcast ==> e.id !in m.deleted
  {
    if e.id in m.deleted {
      assert e.id in m.events && m.events[e.id].id == e.id;
      assert e.(sig := "").kind == m.events[e.id].(sig := "").kind;
    }
  }
}
