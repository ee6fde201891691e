/**
  Whole runs of the rate limiter: the exact level of the bucket, what it lets
  through, how bans succeed each other, and where every rejection is accounted for.
 */
module RateLimiterRuns {
  import opened Wrappers
  import opened RateLimiter

  /** What reaches one IP's bucket: message checks, and probes before a connection is upgraded. */
  datatype Call =
    | Check(pubkey: string, clock: Clock)
    | Probe(at: real)

  function Start(c: Call): real { if c.Check? then c.clock.banCheck else c.at }

  function End(c: Call): real { if c.Check? then c.clock.now else c.at }

  /** One mutex serialises the calls, and the clock does not go back. */
  ghost predicate Chronological(calls: seq<Call>) {
    && (forall i :: 0 <= i < |calls| && calls[i].Check? ==> Ticks(calls[i].clock))
    && (forall i :: 0 < i < |calls| ==> End(calls[i - 1]) <= Start(calls[i]))
  }

  // ---------- the history of one address ----------

  /** A check that drew on the bucket. */
  datatype Hit = Hit(at: real, accepted: bool)

  /** A ban, with the number of bucket rejections up to and including it. */
  datatype Ban = Ban(at: real, rejections: nat)

  datatype History = History(bucket: Option<Bucket>, hits: seq<Hit>, bans: seq<Ban>, resets: nat)

  const UNTOUCHED := History(None, [], [], 0)

  function Accepted(hits: seq<Hit>): nat {
    if hits == [] then 0
    else Accepted(hits[..|hits| - 1]) + if hits[|hits| - 1].accepted then 1 else 0
  }

  function Rejected(hits: seq<Hit>): nat {
    if hits == [] then 0
    else Rejected(hits[..|hits| - 1]) + if hits[|hits| - 1].accepted then 0 else 1
  }

  function LiftsBan(b: Option<Bucket>, at: real): bool {
    b.Some? && b.value.bannedAt.Some? && !StillBanned(b.value, at)
  }

  function Advance(h: History, c: Call): History {
    match c
    case Probe(at) =>
      if h.bucket.None? then h
      else h.(bucket := Some(BanChecked(h.bucket.value, at)), resets := h.resets + if LiftsBan(h.bucket, at) then 1 else 0)
    case Check(pubkey, clock) =>
      var r := Checked(h.bucket, pubkey, clock);
      if !ReachesBucket(h.bucket, clock) then h
      else
        var hits := h.hits + [Hit(clock.now, r.1 == Allowed)];
        History(Some(r.0), hits,
                if r.1 == Banned then h.bans + [Ban(clock.now, Rejected(hits))] else h.bans,
                h.resets + if LiftsBan(h.bucket, clock.banCheck) then 1 else 0)
  }

  function Told(calls: seq<Call>): History {
    if calls == [] then UNTOUCHED else Advance(Told(calls[..|calls| - 1]), calls[|calls| - 1])
  }

  lemma Extended(hits: seq<Hit>, h: Hit)
    ensures Accepted(hits + [h]) == Accepted(hits) + if h.accepted then 1 else 0
    ensures Rejected(hits + [h]) == Rejected(hits) + if h.accepted then 0 else 1
  {
    assert (hits + [h])[..|hits|] == hits;
  }

  // ---------- the ban machine ----------

  ghost predicate BansSpaced(bans: seq<Ban>) {
    && (forall i :: 0 <= i < |bans| ==> bans[i].rejections == 10 * (i + 1))
    && (forall i :: 0 < i < |bans| ==> bans[i].at - bans[i - 1].at > 86400.0)
  }

  /** Violations stay within 0..10, the ban stands exactly at 10, and rejections are 10 a reset plus the current ones. */
  ghost predicate BanInvariant(h: History, now: real) {
    match h.bucket
    case None => h == UNTOUCHED
    case Some(b) =>
      && 0 <= b.violations <= 10
      && (b.bannedAt.Some? <==> b.violations == 10)
      && Rejected(h.hits) == 10 * h.resets + b.violations
      && |h.bans| == h.resets + (if b.bannedAt.Some? then 1 else 0)
      && (b.bannedAt.Some? ==> h.bans[|h.bans| - 1].at == b.bannedAt.value)
      && (b.bannedAt.None? && h.bans != [] ==> now - h.bans[|h.bans| - 1].at > BAN_SECONDS)
  }

  /** A bucket that is drawn on has no ban, fewer than ten violations, and an account that balances. */
  lemma OpenedInvariant(h: History, now: real, clock: Clock)
    requires BanInvariant(h, now) && now <= clock.banCheck && ReachesBucket(h.bucket, clock)
    ensures var b := Opened(h.bucket, clock);
            var resets := h.resets + if LiftsBan(h.bucket, clock.banCheck) then 1 else 0;
            && b.bannedAt.None? && 0 <= b.violations < 10
            && Rejected(h.hits) == 10 * resets + b.violations
            && |h.bans| == resets
            && (h.bans != [] ==> clock.banCheck - h.bans[|h.bans| - 1].at > BAN_SECONDS)
  {
  }

  lemma BanStep(h: History, now: real, c: Call)
    requires BanInvariant(h, now) && BansSpaced(h.bans)
    requires now <= Start(c) && (c.Check? ==> Ticks(c.clock))
    ensures BanInvariant(Advance(h, c), End(c)) && BansSpaced(Advance(h, c).bans)
  {
    if c.Check? {
      if ReachesBucket(h.bucket, c.clock) {
        OpenedInvariant(h, now, c.clock);
        HitStep(h, c);
      }
    }
  }

  lemma HitStep(h: History, c: Call)
    requires c.Check? && Ticks(c.clock) && ReachesBucket(h.bucket, c.clock) && BansSpaced(h.bans)
    requires var b := Opened(h.bucket, c.clock);
             var resets := h.resets + if LiftsBan(h.bucket, c.clock.banCheck) then 1 else 0;
             && b.bannedAt.None? && 0 <= b.violations < 10
             && Rejected(h.hits) == 10 * resets + b.violations
             && |h.bans| == resets
             && (h.bans != [] ==> c.clock.banCheck - h.bans[|h.bans| - 1].at > BAN_SECONDS)
    ensures BanInvariant(Advance(h, c), End(c)) && BansSpaced(Advance(h, c).bans)
  {
    var r := Checked(h.bucket, c.pubkey, c.clock);
    Drawn(h.bucket, c.pubkey, c.clock);
    Extended(h.hits, Hit(c.clock.now, r.1 == Allowed));
    if r.1 == Banned {
      OneBanMore(h.bans, Ban(c.clock.now, Rejected(h.hits) + 1));
    }
  }

  lemma OneBanMore(bans: seq<Ban>, ban: Ban)
    requires BansSpaced(bans) && ban.rejections == 10 * (|bans| + 1)
    requires bans != [] ==> ban.at - bans[|bans| - 1].at > 86400.0
    ensures BansSpaced(bans + [ban])
  {
  }

  /** A rejection is one violation more, and the tenth is a ban. */
  lemma Drawn(b: Option<Bucket>, pubkey: string, clock: Clock)
    requires ReachesBucket(b, clock) && Opened(b, clock).bannedAt.None? && 0 <= Opened(b, clock).violations < 10
    ensures var r := Checked(b, pubkey, clock);
            && r.0.violations == Opened(b, clock).violations + (if r.1 == Allowed then 0 else 1)
            && r.0.bannedAt == (if r.1 == Banned then Some(clock.now) else None)
            && (r.1 == Banned <==> r.0.violations == 10)
  {
  }

  lemma {:induction false} BanMachine(calls: seq<Call>)
    requires Chronological(calls)
    ensures BansSpaced(Told(calls).bans)
    ensures calls != [] ==> BanInvariant(Told(calls), End(calls[|calls| - 1]))
  {
    if calls == [] {
    } else {
      var n := |calls| - 1;
      BanMachine(calls[..n]);
      BanStep(Told(calls[..n]), if n == 0 then Start(calls[0]) else End(calls[n - 1]), calls[n]);
    }
  }

  /** Between consecutive bans of an address: more than 24 hours and exactly ten bucket rejections. */
  lemma BetweenBans(calls: seq<Call>, i: nat)
    requires Chronological(calls) && 0 < i < |Told(calls).bans|
    ensures var bans := Told(calls).bans;
            bans[i].at - bans[i - 1].at > 86400.0 && bans[i].rejections - bans[i - 1].rejections == 10
  {
    BanMachine(calls);
  }

  // ---------- the exact level of the bucket ----------

  ghost predicate Ordered(hits: seq<Hit>) {
    forall i, j :: 0 <= i <= j < |hits| ==> hits[i].at <= hits[j].at
  }

  /** Tokens after the refill of hit j. */
  function Level(hits: seq<Hit>, j: nat): real
    requires j < |hits|
  {
    if j == 0 then BURST
    else
      var left := Level(hits, j - 1) - (if hits[j - 1].accepted then 1.0 else 0.0);
      var tokens := left + Regained(hits[j].at - hits[j - 1].at);
      if tokens > BURST then BURST else tokens
  }

  /** What a bucket full at hit i would hold at hit j, were it never capped in between. */
  function Credit(hits: seq<Hit>, i: nat, j: nat): real
    requires i <= j < |hits|
  {
    20.0 + 10.0 * (hits[j].at - hits[i].at) - Accepted(hits[i..j]) as real
  }

  lemma {:induction false} LevelIsPrefix(hits: seq<Hit>, more: seq<Hit>, j: nat)
    requires j < |hits|
    ensures Level(hits + more, j) == Level(hits, j)
  {
    if j == 0 {
    } else {
      LevelIsPrefix(hits, more, j - 1);
    }
  }

  /** A hit is accepted exactly when the level reaches one token. */
  ghost predicate FollowsRate(hits: seq<Hit>) {
    Ordered(hits) && forall j: nat :: j < |hits| ==> AcceptedByLevel(hits, j)
  }

  ghost predicate AcceptedByLevel(hits: seq<Hit>, j: nat)
    requires j < |hits|
  {
    hits[j].accepted <==> Level(hits, j) >= 1.0
  }

  /** The bucket of a history holds the level of its last hit, less the token that hit took. */
  ghost predicate FollowsLevel(h: History, now: real) {
    && (h.bucket.None? <==> h.hits == [])
    && FollowsRate(h.hits)
    && (h.hits != [] ==>
        var last := h.hits[|h.hits| - 1];
        && h.bucket.value.lastRefill == last.at <= now
        && h.bucket.value.tokens == Level(h.hits, |h.hits| - 1) - (if last.accepted then 1.0 else 0.0))
  }

  lemma LevelStep(h: History, now: real, c: Call)
    requires FollowsLevel(h, now)
    requires now <= Start(c) && (c.Check? ==> Ticks(c.clock))
    ensures FollowsLevel(Advance(h, c), End(c))
  {
    if c.Check? && ReachesBucket(h.bucket, c.clock) {
      var hit := Hit(c.clock.now, Checked(h.bucket, c.pubkey, c.clock).1 == Allowed);
      TokensDrawn(h, now, c.pubkey, c.clock);
      LevelOfNext(h.hits, hit);
      FollowsOneMore(h.hits, hit);
    }
  }

  /** The level a next hit finds. */
  function NextLevel(hits: seq<Hit>, at: real): real {
    if hits == [] then BURST
    else
      var last := hits[|hits| - 1];
      var tokens := Level(hits, |hits| - 1) - (if last.accepted then 1.0 else 0.0) + Regained(at - last.at);
      if tokens > BURST then BURST else tokens
  }

  lemma LevelOfNext(hits: seq<Hit>, hit: Hit)
    ensures Level(hits + [hit], |hits|) == NextLevel(hits, hit.at)
  {
    if hits != [] { LevelIsPrefix(hits, [hit], |hits| - 1); }
  }

  lemma TokensDrawn(h: History, now: real, pubkey: string, clock: Clock)
    requires FollowsLevel(h, now) && Ticks(clock) && ReachesBucket(h.bucket, clock)
    ensures var r := Checked(h.bucket, pubkey, clock);
            && r.0.lastRefill == clock.now
            && r.0.tokens == NextLevel(h.hits, clock.now) - (if r.1 == Allowed then 1.0 else 0.0)
            && (r.1 == Allowed <==> NextLevel(h.hits, clock.now) >= 1.0)
  {
  }

  lemma FollowsOneMore(hits: seq<Hit>, hit: Hit)
    requires FollowsRate(hits) && (hits != [] ==> hits[|hits| - 1].at <= hit.at)
    requires hit.accepted <==> Level(hits + [hit], |hits|) >= 1.0
    ensures FollowsRate(hits + [hit])
  {
    forall j: nat | j < |hits| + 1 ensures AcceptedByLevel(hits + [hit], j) {
      if j < |hits| {
        LevelIsPrefix(hits, [hit], j);
        assert AcceptedByLevel(hits, j);
      }
    }
  }

  lemma {:induction false} BucketFollowsLevel(calls: seq<Call>)
    requires Chronological(calls)
    ensures Told(calls).hits != [] ==> calls != []
    ensures calls != [] ==> FollowsLevel(Told(calls), End(calls[|calls| - 1]))
  {
    if calls == [] {
    } else {
      var n := |calls| - 1;
      BucketFollowsLevel(calls[..n]);
      LevelStep(Told(calls[..n]), if n == 0 then Start(calls[0]) else End(calls[n - 1]), calls[n]);
    }
  }

  /** `tokens` is the minimum of the credits over all hits up to j. */
  ghost predicate IsLeastCredit(hits: seq<Hit>, j: nat, tokens: real)
    requires j < |hits|
  {
    && (forall i :: 0 <= i <= j ==> tokens <= Credit(hits, i, j))
    && (exists i :: 0 <= i <= j && tokens == Credit(hits, i, j))
  }

  /** The level is exactly the least credit over all earlier hits. */
  lemma {:induction false} LevelIsLeastCredit(hits: seq<Hit>, j: nat)
    requires j < |hits| && Ordered(hits)
    ensures IsLeastCredit(hits, j, Level(hits, j))
  {
    assert Credit(hits, j, j) == BURST;
    if j == 0 {
    } else {
      LevelIsLeastCredit(hits, j - 1);
      forall i | 0 <= i < j
        ensures Credit(hits, i, j) == Credit(hits, i, j - 1) - (if hits[j - 1].accepted then 1.0 else 0.0)
                                      + Regained(hits[j].at - hits[j - 1].at)
      {
        assert hits[i..j] == hits[i..j - 1] + [hits[j - 1]];
        Extended(hits[i..j - 1], hits[j - 1]);
      }
      var i :| 0 <= i <= j - 1 && Level(hits, j - 1) == Credit(hits, i, j - 1);
      assert Level(hits, j) == Credit(hits, i, j) || Level(hits, j) == Credit(hits, j, j);
    }
  }

  /** Tokens after the refill of the latest hit equal the minimum of 20 + 10 (t_j - t_i) - accepted(i..j-1). */
  lemma TokensAreLeastCredit(calls: seq<Call>)
    requires Chronological(calls) && Told(calls).hits != []
    ensures var h := Told(calls); var j := |h.hits| - 1;
            && h.bucket.Some?
            && IsLeastCredit(h.hits, j, BeforeTaking(h.bucket.value, h.hits[j]))
            && (h.hits[j].accepted <==> BeforeTaking(h.bucket.value, h.hits[j]) >= 1.0)
  {
    var h := Told(calls);
    var j := |h.hits| - 1;
    BucketFollowsLevel(calls);
    assert AcceptedByLevel(h.hits, j);
    assert BeforeTaking(h.bucket.value, h.hits[j]) == Level(h.hits, j);
    LevelIsLeastCredit(h.hits, j);
  }

  /** The tokens the bucket held when `hit` was decided. */
  function BeforeTaking(b: Bucket, hit: Hit): real {
    b.tokens + if hit.accepted then 1.0 else 0.0
  }

  // ---------- how long a ban lasts ----------

  ghost predicate WithinBan(h: History, at: real) {
    h.bans != [] && at - h.bans[|h.bans| - 1].at <= 86400.0
  }

  /**
    A check draws on the bucket exactly if there is no ban yet or the last one is more
    than 24 hours old; the first one after a ban finds the bucket full and is accepted.
   */
  lemma BanEndsAfterADay(calls: seq<Call>, c: Call)
    requires c.Check? && Chronological(calls + [c])
    ensures var h, h' := Told(calls), Told(calls + [c]);
            if WithinBan(h, c.clock.banCheck) then
              h' == h && h.bucket.Some? && Checked(h.bucket, c.pubkey, c.clock).1 == Banned
            else
              && |h'.hits| == |h.hits| + 1 && h'.hits[..|h.hits|] == h.hits && h'.hits[|h.hits|].at == c.clock.now
              && (h'.hits[|h.hits|].accepted <==> Checked(h.bucket, c.pubkey, c.clock).1 == Allowed)
    ensures var h, h' := Told(calls), Told(calls + [c]);
            !WithinBan(h, c.clock.banCheck) && h.bans != [] && h.hits != []
            && h.hits[|h.hits| - 1].at == h.bans[|h.bans| - 1].at ==>
              |h'.hits| == |h.hits| + 1 && h'.hits[|h.hits|].accepted
  {
    OneCallMore(calls, c);
    if calls != [] {
      BanMachine(calls);
      BucketFollowsLevel(calls);
      DrawsOutsideBan(Told(calls), End(calls[|calls| - 1]), c);
    }
    CheckAdvances(Told(calls), c);
  }

  lemma CheckAdvances(h: History, c: Call)
    requires c.Check?
    ensures var h' := Advance(h, c);
            if ReachesBucket(h.bucket, c.clock) then
              h'.hits == h.hits + [Hit(c.clock.now, Checked(h.bucket, c.pubkey, c.clock).1 == Allowed)]
            else h' == h && h.bucket.Some? && Checked(h.bucket, c.pubkey, c.clock).1 == Banned
  {
  }

  /** A probe finds the address banned exactly within those 24 hours. */
  lemma ProbeTellsBan(calls: seq<Call>, at: real)
    requires Chronological(calls) && (calls != [] ==> End(calls[|calls| - 1]) <= at)
    ensures var h := Told(calls);
            (h.bucket.Some? && StillBanned(h.bucket.value, at)) <==> WithinBan(h, at)
  {
    if calls != [] {
      BanMachine(calls);
      BanStands(Told(calls), End(calls[|calls| - 1]), at);
    }
  }

  lemma BanStands(h: History, now: real, at: real)
    requires BanInvariant(h, now) && now <= at
    ensures (h.bucket.Some? && StillBanned(h.bucket.value, at)) <==> WithinBan(h, at)
  {
  }

  lemma OneCallMore(calls: seq<Call>, c: Call)
    requires Chronological(calls + [c])
    ensures Told(calls + [c]) == Advance(Told(calls), c)
    ensures Chronological(calls) && (calls != [] ==> End(calls[|calls| - 1]) <= Start(c))
    ensures c.Check? ==> Ticks(c.clock)
  {
    var all := calls + [c];
    assert all[..|calls|] == calls;
    assert forall i :: 0 <= i < |calls| ==> all[i] == calls[i];
    assert all[|calls|] == c;
  }

  lemma DrawsOutsideBan(h: History, now: real, c: Call)
    requires BanInvariant(h, now) && FollowsLevel(h, now)
    requires c.Check? && Ticks(c.clock) && now <= c.clock.banCheck
    ensures ReachesBucket(h.bucket, c.clock) <==> !WithinBan(h, c.clock.banCheck)
    ensures !WithinBan(h, c.clock.banCheck) && h.bans != [] && h.hits != []
            && h.hits[|h.hits| - 1].at == h.bans[|h.bans| - 1].at ==>
              Checked(h.bucket, c.pubkey, c.clock).1 == Allowed
  {
    if !WithinBan(h, c.clock.banCheck) && h.bans != [] && h.hits != []
       && h.hits[|h.hits| - 1].at == h.bans[|h.bans| - 1].at {
      FullAfterADay(h, now, c);
    }
  }

  lemma FullAfterADay(h: History, now: real, c: Call)
    requires c.Check? && Ticks(c.clock) && now <= c.clock.banCheck
    requires FollowsLevel(h, now) && h.hits != [] && c.clock.banCheck - h.hits[|h.hits| - 1].at > 86400.0
    requires ReachesBucket(h.bucket, c.clock)
    ensures Checked(h.bucket, c.pubkey, c.clock).1 == Allowed
  {
    LevelIsNotNegative(h.hits, |h.hits| - 1);
    assert AcceptedByLevel(h.hits, |h.hits| - 1);
    TokensDrawn(h, now, c.pubkey, c.clock);
  }

  // ---------- what is let through ----------

  ghost predicate NoRejection(hits: seq<Hit>) {
    forall j :: 0 <= j < |hits| ==> hits[j].accepted
  }

  /** Hits i..j, both included, are at most the burst plus the refill between them. */
  ghost predicate WithinRate(hits: seq<Hit>) {
    forall i, j :: 0 <= i <= j < |hits| ==> (j - i + 1) as real <= 20.0 + 10.0 * (hits[j].at - hits[i].at)
  }

  lemma {:induction false} AllAccepted(hits: seq<Hit>)
    requires NoRejection(hits)
    ensures Accepted(hits) == |hits|
  {
    if hits == [] {
    } else {
      AllAccepted(hits[..|hits| - 1]);
    }
  }

  lemma RejectsExactlyAboveRate(hits: seq<Hit>)
    requires FollowsRate(hits)
    ensures NoRejection(hits) <==> WithinRate(hits)
  {
    if NoRejection(hits) {
      forall i, j | 0 <= i <= j < |hits| ensures (j - i + 1) as real <= 20.0 + 10.0 * (hits[j].at - hits[i].at) {
        LevelIsLeastCredit(hits, j);
        AllAccepted(hits[i..j]);
        assert AcceptedByLevel(hits, j) && Level(hits, j) <= Credit(hits, i, j);
      }
    }
    if WithinRate(hits) {
      WithinRateIsAccepted(hits, |hits|);
    }
  }

  lemma {:induction false} WithinRateIsAccepted(hits: seq<Hit>, n: nat)
    requires n <= |hits| && FollowsRate(hits) && WithinRate(hits)
    ensures forall j :: 0 <= j < n ==> hits[j].accepted
  {
    if n == 0 {
    } else {
      var j := n - 1;
      WithinRateIsAccepted(hits, j);
      LevelIsLeastCredit(hits, j);
      var i :| 0 <= i <= j && Level(hits, j) == Credit(hits, i, j);
      AllAccepted(hits[i..j]);
      assert AcceptedByLevel(hits, j);
      assert (j - i + 1) as real <= 20.0 + 10.0 * (hits[j].at - hits[i].at);
    }
  }

  /** A run rejects nothing exactly when every stretch of it keeps within burst and rate. */
  lemma NoRejectionIffWithinRate(calls: seq<Call>)
    requires Chronological(calls)
    ensures NoRejection(Told(calls).hits) <==> WithinRate(Told(calls).hits)
  {
    BucketFollowsLevel(calls);
    if calls != [] { RejectsExactlyAboveRate(Told(calls).hits); }
  }

  lemma {:induction false} LevelIsNotNegative(hits: seq<Hit>, j: nat)
    requires j < |hits| && FollowsRate(hits)
    ensures Level(hits, j) >= 0.0
  {
    if j == 0 {
    } else {
      LevelIsNotNegative(hits, j - 1);
      assert AcceptedByLevel(hits, j - 1);
    }
  }

  /** Any window accepts at most 20 plus 10 a second. */
  lemma WindowBound(calls: seq<Call>, i: nat, j: nat)
    requires Chronological(calls) && i <= j < |Told(calls).hits|
    ensures var hits := Told(calls).hits;
            Accepted(hits[i..j + 1]) as real <= 20.0 + 10.0 * (hits[j].at - hits[i].at)
  {
    BucketFollowsLevel(calls);
    RateBoundsWindows(Told(calls).hits, i, j);
  }

  lemma RateBoundsWindows(hits: seq<Hit>, i: nat, j: nat)
    requires FollowsRate(hits) && i <= j < |hits|
    ensures Accepted(hits[i..j + 1]) as real <= 20.0 + 10.0 * (hits[j].at - hits[i].at)
  {
    LevelIsLeastCredit(hits, j);
    LevelIsNotNegative(hits, j);
    assert AcceptedByLevel(hits, j);
    assert Level(hits, j) <= Credit(hits, i, j);
    assert hits[i..j + 1] == hits[i..j] + [hits[j]];
    Extended(hits[i..j], hits[j]);
  }

  // ---------- all addresses together ----------

  datatype IpCall = IpCall(ip: string, call: Call)

  function StepAll(s: Limiters, c: IpCall): Limiters {
    match c.call
    case Check(pubkey, clock) => AfterCheck(s, c.ip, pubkey, clock)
    case Probe(at) => AfterProbe(s, c.ip, at)
  }

  function RunAll(cs: seq<IpCall>): Limiters {
    if cs == [] then Limiters(map[], 0) else StepAll(RunAll(cs[..|cs| - 1]), cs[|cs| - 1])
  }

  function CallsOf(cs: seq<IpCall>, ip: string): seq<Call> {
    if cs == [] then []
    else
      var before := CallsOf(cs[..|cs| - 1], ip);
      if cs[|cs| - 1].ip == ip then before + [cs[|cs| - 1].call] else before
  }

  /** The limiter holds for each address the bucket of that address's own calls: other addresses do not matter. */
  lemma {:induction false} AddressesAreIndependent(cs: seq<IpCall>, ip: string)
    ensures BucketOf(RunAll(cs), ip) == Told(CallsOf(cs, ip)).bucket
  {
    if cs == [] {
    } else {
      var before, c := cs[..|cs| - 1], cs[|cs| - 1];
      AddressesAreIndependent(before, ip);
      if c.ip == ip {
        var calls := CallsOf(before, ip);
        assert (calls + [c.call])[..|calls|] == calls;
      }
    }
  }

  ghost predicate ChronologicalRun(cs: seq<IpCall>) {
    && (forall i :: 0 <= i < |cs| && cs[i].call.Check? ==> Ticks(cs[i].call.clock))
    && (forall i, j :: 0 <= i < j < |cs| ==> End(cs[i].call) <= Start(cs[j].call))
  }

  lemma {:induction false} CallsAreChronological(cs: seq<IpCall>, ip: string)
    requires ChronologicalRun(cs)
    ensures Chronological(CallsOf(cs, ip))
    ensures forall k :: 0 <= k < |CallsOf(cs, ip)| ==> exists i :: 0 <= i < |cs| && cs[i].call == CallsOf(cs, ip)[k]
  {
    if cs == [] {
    } else {
      CallsAreChronological(cs[..|cs| - 1], ip);
      var calls := CallsOf(cs[..|cs| - 1], ip);
      forall k | 0 <= k < |calls| ensures exists i :: 0 <= i < |cs| - 1 && cs[i].call == calls[k] {
        var i :| 0 <= i < |cs| - 1 && cs[..|cs| - 1][i].call == calls[k];
        assert cs[i].call == calls[k];
      }
      assert cs[|cs| - 1].call == cs[|cs| - 1].call;
    }
  }

  /** In every reachable state violations are in 0..10, and the ban time is set exactly when they are 10. */
  lemma ReachableBuckets(cs: seq<IpCall>, ip: string)
    requires ChronologicalRun(cs) && ip in RunAll(cs).buckets
    ensures var b := RunAll(cs).buckets[ip]; 0 <= b.violations <= 10 && (b.bannedAt.Some? <==> b.violations == 10)
  {
    AddressesAreIndependent(cs, ip);
    CallsAreChronological(cs, ip);
    BanMachine(CallsOf(cs, ip));
  }

  // ---------- conservation of rejections ----------

  ghost function Sum(m: map<string, int>): int {
    if m == map[] then 0
    else var k :| k in m; m[k] + Sum(m - {k})
  }

  lemma {:induction false} SumOf(m: map<string, int>, k: string)
    requires k in m
    ensures Sum(m) == m[k] + Sum(m - {k})
    decreases |m|
  {
    var j :| j in m && Sum(m) == m[j] + Sum(m - {j});
    if j != k {
      SumOf(m - {j}, k);
      SumOf(m - {k}, j);
      assert m - {j} - {k} == m - {k} - {j};
    }
  }

  function Entry(m: map<string, int>, k: string): int {
    if k in m then m[k] else 0
  }

  lemma SumChange(m: map<string, int>, n: map<string, int>, k: string)
    requires m - {k} == n - {k}
    ensures Sum(n) - Sum(m) == Entry(n, k) - Entry(m, k)
  {
    if k in m { SumOf(m, k); } else { assert m - {k} == m; }
    if k in n { SumOf(n, k); } else { assert n - {k} == n; }
  }

  /** What each address owes: ten rejections a lifted ban, and its current violations. */
  ghost function Ledger(cs: seq<IpCall>): map<string, int> {
    map ip | ip in RunAll(cs).buckets :: Owed(CallsOf(cs, ip), RunAll(cs).buckets[ip])
  }

  function Owed(calls: seq<Call>, b: Bucket): int {
    10 * Told(calls).resets + b.violations
  }

  /** An address owes its bucket rejections. */
  lemma EntryIsRejections(cs: seq<IpCall>, ip: string)
    requires ChronologicalRun(cs)
    ensures Entry(Ledger(cs), ip) == Rejected(Told(CallsOf(cs, ip)).hits)
  {
    AddressesAreIndependent(cs, ip);
    CallsAreChronological(cs, ip);
    BanMachine(CallsOf(cs, ip));
  }

  /** A call changes the account of its own address only, and by as much as the counter. */
  lemma CallRejections(cs: seq<IpCall>)
    requires cs != []
    ensures var before, ip := cs[..|cs| - 1], cs[|cs| - 1].ip;
            Rejected(Told(CallsOf(cs, ip)).hits) - Rejected(Told(CallsOf(before, ip)).hits)
            == RunAll(cs).rateLimitedCount - RunAll(before).rateLimitedCount
  {
    var before, c := cs[..|cs| - 1], cs[|cs| - 1];
    AddressesAreIndependent(before, c.ip);
    var calls := CallsOf(before, c.ip);
    assert (calls + [c.call])[..|calls|] == calls;
    var h := Told(calls);
    assert Told(CallsOf(cs, c.ip)) == Advance(h, c.call);
    if c.call.Check? {
      Extended(h.hits, Hit(c.call.clock.now, Checked(h.bucket, c.call.pubkey, c.call.clock).1 == Allowed));
    }
  }

  lemma OtherAddressesUnchanged(cs: seq<IpCall>)
    requires cs != []
    ensures var before, ip := cs[..|cs| - 1], cs[|cs| - 1].ip; Ledger(cs) - {ip} == Ledger(before) - {ip}
  {
    var before, c := cs[..|cs| - 1], cs[|cs| - 1];
    var s, t := RunAll(before).buckets, RunAll(cs).buckets;
    assert t - {c.ip} == s - {c.ip} by { StepTouchesOne(RunAll(before), c); }
    forall ip | ip != c.ip
      ensures CallsOf(cs, ip) == CallsOf(before, ip)
      ensures ip in t <==> ip in s
      ensures ip in s ==> t[ip] == s[ip]
    {
      assert ip in t <==> ip in t - {c.ip};
      assert ip in s <==> ip in s - {c.ip};
    }
  }

  lemma StepTouchesOne(s: Limiters, c: IpCall)
    ensures StepAll(s, c).buckets - {c.ip} == s.buckets - {c.ip}
  {
  }

  /** rateLimitedCount is the sum over addresses of 10 (ban resets) + current violations. */
  lemma {:induction false} RejectionsAreConserved(cs: seq<IpCall>)
    requires ChronologicalRun(cs)
    ensures RunAll(cs).rateLimitedCount == Sum(Ledger(cs))
  {
    if cs == [] {
      assert Ledger(cs) == map[];
    } else {
      var before, ip := cs[..|cs| - 1], cs[|cs| - 1].ip;
      RejectionsAreConserved(before);
      CallRejections(cs);
      EntryIsRejections(cs, ip);
      EntryIsRejections(before, ip);
      OtherAddressesUnchanged(cs);
      SumChange(Ledger(before), Ledger(cs), ip);
    }
  }
}
