/**
  One client connection: its state, the gate every message passes, and the methods
  that change it. Decoding JSON is outside the model: an element carries what each
  of the decodings tried on it yields. Messages queued to the socket form a log.
 */
module Protocol {
  import opened Wrappers
  import opened Events
  import RL = RateLimiter

  const MAX_SUBSCRIPTIONS := 20
  const AUTH_KIND := 22242

  datatype Reason =
    | NoReason | AuthRequired | RateLimited(verdict: RL.Verdict) | TooManySubscriptions | Malformed | InvalidEvent
    | InvalidAuth | ChallengeMismatch | Authenticated | PolicyRejected | InvalidKind | HasExpired | VanishProcessed
    | SaveFailed | Duplicate | HandlerFailed | NoFilters

  datatype Reply =
    | EventReply(subId: string, evt: Event)
    | EoseReply(subId: string)
    | OkReply(id: string, accepted: bool, reason: Reason)
    | NoticeReply(reason: Reason)
    | ClosedReply(id: string, reason: Reason)
    | CountReply(id: string, count: nat)
    | AuthReply(challenge: string)

  type Subscriptions = map<string, seq<Filter>>

  datatype Session = Session(
    requireAuth: bool, authenticated: bool, authChallenge: string, authPubKey: string,
    subscriptions: Subscriptions, sent: seq<Reply>)

  function Say(s: Session, r: Reply): Session {
    s.(sent := s.sent + [r])
  }

  function Subscribed(s: Session, subId: string, filters: seq<Filter>): Session {
    s.(subscriptions := s.subscriptions[subId := filters])
  }

  // ---------- incoming messages ----------

  /** What decoding an element as a string, an event, an object with a kind or an id, and a filter gives. */
  datatype Element = Element(
    text: Option<string>, event: Option<Event>, kind: Option<int>, id: Option<string>, filter: Option<Filter>)

  datatype Frame = NotAnArray | Frame(elements: seq<Element>)

  /** What a message leads to once it has passed or failed the gate. */
  datatype Action =
    | Answer(reply: Reply)
    | Handle(evt: Event)
    | Subscribe(subId: string, filters: seq<Filter>)
    | Unsubscribe(subId: string)
    | Count(countId: string, filters: seq<Filter>)

  function ParsedFilters(elements: seq<Element>): Option<seq<Filter>> {
    if elements == [] then Some([])
    else if elements[0].filter.None? then None
    else
      var rest := ParsedFilters(elements[1..]);
      if rest.None? then None else Some([elements[0].filter.value] + rest.value)
  }

  /** Only CLOSE and events of the AUTH kind pass without authentication. */
  function AuthRefusal(type_: string, elements: seq<Element>): Reply
    requires elements != []
  {
    if (type_ == "REQ" || type_ == "COUNT") && |elements| >= 2 && elements[1].text.Some? then
      ClosedReply(elements[1].text.value, AuthRequired)
    else if type_ == "EVENT" && |elements| >= 2 && elements[1].id.Some? then
      OkReply(elements[1].id.value, false, AuthRequired)
    else NoticeReply(AuthRequired)
  }

  predicate IsHandshake(type_: string, elements: seq<Element>) {
    type_ == "EVENT" && |elements| >= 2 && elements[1].kind == Some(AUTH_KIND)
  }

  function RateRefusal(type_: string, elements: seq<Element>, verdict: RL.Verdict): Reply {
    if (type_ == "REQ" || type_ == "COUNT") && |elements| >= 2 && elements[1].text.Some? then
      ClosedReply(elements[1].text.value, RateLimited(verdict))
    else NoticeReply(RateLimited(verdict))
  }

  /** The gate; `rate` is what the rate limiter answers if it is asked. */
  function Admitted(valid: Event -> bool, s: Session, f: Frame, rate: RL.Verdict): Action {
    if f.NotAnArray? || f.elements == [] || f.elements[0].text.None? then Answer(NoticeReply(Malformed))
    else
      var type_, es := f.elements[0].text.value, f.elements;
      if s.requireAuth && !s.authenticated && type_ != "CLOSE" && !IsHandshake(type_, es) then
        Answer(AuthRefusal(type_, es))
      else if type_ != "CLOSE" && rate != RL.Allowed then
        Answer(RateRefusal(type_, es, rate))
      else Dispatched(valid, s.subscriptions, type_, es)
  }

  function Dispatched(valid: Event -> bool, subs: Subscriptions, type_: string, es: seq<Element>): Action {
    match type_
    case "EVENT" =>
      if |es| != 2 || es[1].event.None? then Answer(NoticeReply(Malformed))
      else
        var evt := es[1].event.value;
        if !valid(evt) then Answer(OkReply(evt.id, false, InvalidEvent)) else Handle(evt)
    case "REQ" =>
      if |es| < 2 || es[1].text.None? then Answer(NoticeReply(Malformed))
      else
        var subId := es[1].text.value;
        if subId !in subs && |subs| >= MAX_SUBSCRIPTIONS then Answer(ClosedReply(subId, TooManySubscriptions))
        else
          var filters := ParsedFilters(es[2..]);
          if filters.None? then Answer(NoticeReply(Malformed)) else Subscribe(subId, filters.value)
    case "CLOSE" =>
      if |es| != 2 || es[1].text.None? then Answer(NoticeReply(Malformed)) else Unsubscribe(es[1].text.value)
    case "COUNT" =>
      if |es| < 3 || es[1].text.None? then Answer(NoticeReply(Malformed))
      else
        var filters := ParsedFilters(es[2..]);
        if filters.None? then Answer(NoticeReply(Malformed)) else Count(es[1].text.value, filters.value)
    case _ => Answer(NoticeReply(Malformed))
  }

  /** Without authentication the gate lets through nothing but a handshake and a CLOSE. */
  lemma GateStopsUnauthenticated(valid: Event -> bool, s: Session, f: Frame, rate: RL.Verdict)
    requires s.requireAuth && !s.authenticated
    ensures var a := Admitted(valid, s, f, rate);
            && !a.Subscribe? && !a.Count?
            && (a.Handle? ==> f.elements[1].kind == Some(AUTH_KIND) && f.elements[1].event == Some(a.evt) && valid(a.evt))
            && (a.Answer? ==> !a.reply.EventReply? && !a.reply.CountReply?)
  {
  }

  // ---------- subscriptions ----------

  /** Some filter of some subscription lists the key under its p tags. */
  ghost predicate WatchesPubKey(subs: Subscriptions, pubKey: string) {
    exists subId, i :: subId in subs && 0 <= i < |subs[subId]| && ListsPubKey(subs[subId][i], pubKey)
  }

  predicate ListsPubKey(f: Filter, pubKey: string) {
    "p" in f.tags && pubKey in f.tags["p"]
  }

  class Client {
    var requireAuth: bool
    var authenticated: bool
    var authChallenge: string
    var authPubKey: string
    var subscriptions: map<string, seq<Filter>>
    var sent: seq<Reply>

    ghost function State(): Session
      reads this
    {
      Session(requireAuth, authenticated, authChallenge, authPubKey, subscriptions, sent)
    }

    constructor ()
      ensures State() == Session(false, false, "", "", map[], [])
    {
      requireAuth, authenticated, authChallenge, authPubKey, subscriptions, sent := false, false, "", "", map[], [];
    }

    /** `challenge` is the random text generated for the connection. */
    method SetRequireAuth(challenge: string)
      modifies this
      ensures State() == old(State()).(requireAuth := true, authChallenge := challenge)
    {
      requireAuth := true;
      authChallenge := challenge;
    }

    method Authenticate(pubkey: string)
      modifies this
      ensures State() == old(State()).(authenticated := true, authPubKey := pubkey)
    {
      authenticated := true;
      authPubKey := pubkey;
    }

    method Send(r: Reply)
      modifies this`sent
      ensures State() == Say(old(State()), r)
    {
      sent := sent + [r];
    }

    method StoreSubscription(subId: string, filters: seq<Filter>)
      modifies this`subscriptions
      ensures State() == old(State()).(subscriptions := old(subscriptions)[subId := filters])
    {
      subscriptions := subscriptions[subId := filters];
    }

    method RemoveSubscription(subId: string)
      modifies this`subscriptions
      ensures State() == old(State()).(subscriptions := old(subscriptions) - {subId})
    {
      subscriptions := subscriptions - {subId};
    }

    method GetSubscriptions() returns (subs: map<string, seq<Filter>>)
      ensures subs == subscriptions
    {
      subs := map[];
      var rest := subscriptions.Keys;
      while rest != {}
        invariant rest <= subscriptions.Keys
        invariant subs == map k | k in subscriptions && k !in rest :: subscriptions[k]
      {
        var k :| k in rest;
        rest := rest - {k};
        subs := subs[k := subscriptions[k]];
      }
    }

    method HasSubscriptionToPubKey(pubKey: string) returns (has: bool)
      ensures has <==> WatchesPubKey(subscriptions, pubKey)
    {
      var rest := subscriptions.Keys;
      while rest != {}
        invariant rest <= subscriptions.Keys
        invariant forall k, i :: k in subscriptions && k !in rest && 0 <= i < |subscriptions[k]| ==>
          !ListsPubKey(subscriptions[k][i], pubKey)
      {
        var subId :| subId in rest;
        rest := rest - {subId};
        var filters := subscriptions[subId];
        for i := 0 to |filters|
          invariant forall k :: 0 <= k < i ==> !ListsPubKey(filters[k], pubKey)
        {
          if ListsPubKey(filters[i], pubKey) {
            return true;
          }
        }
      }
      return false;
    }
  }
}
