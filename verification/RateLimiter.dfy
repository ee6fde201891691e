/**
  The per-IP token bucket and ban. Clock readings are seconds as reals and come
  from the caller; a check reads the clock up to three times. Each IP's bucket is
  a small machine of its own (`Advance`), and the limiter runs one per IP.
 */
module RateLimiter {
  import opened Wrappers

  const BURST := 20.0           // tokens a full bucket holds
  const BAN_VIOLATIONS := 10
  const BAN_SECONDS := 86400.0

  /** Tokens regained over a time span: 10 a second. */
  function Regained(seconds: real): real { 10.0 * seconds }

  datatype Bucket = Bucket(
    tokens: real, lastRefill: real, violations: int, bannedAt: Option<real>, pubkeys: set<string>)

  datatype Verdict = Allowed | Limited | Banned

  /** The clock as read by the ban check, when creating a bucket, and when refilling. */
  datatype Clock = Clock(banCheck: real, created: real, now: real)

  predicate Ticks(c: Clock) {
    c.banCheck <= c.created <= c.now
  }

  // ---------- one bucket ----------

  function StillBanned(b: Bucket, at: real): bool {
    b.bannedAt.Some? && !(at - b.bannedAt.value > BAN_SECONDS)
  }

  /** An expired ban is lifted when it is next looked at. */
  function BanChecked(b: Bucket, at: real): Bucket {
    if b.bannedAt.Some? && !StillBanned(b, at) then b.(bannedAt := None, violations := 0) else b
  }

  function Refilled(b: Bucket, now: real): Bucket {
    var tokens := b.tokens + Regained(now - b.lastRefill);
    b.(tokens := if tokens > BURST then BURST else tokens, lastRefill := now)
  }

  function Spent(b: Bucket, now: real): (Bucket, Verdict) {
    if b.tokens < 1.0 then
      var violations := b.violations + 1;
      if violations >= BAN_VIOLATIONS then (b.(violations := violations, bannedAt := Some(now)), Banned)
      else (b.(violations := violations), Limited)
    else (b.(tokens := b.tokens - 1.0), Allowed)
  }

  function Opened(b: Option<Bucket>, clock: Clock): Bucket {
    if b.Some? then BanChecked(b.value, clock.banCheck) else Bucket(BURST, clock.created, 0, None, {})
  }

  /** True when the check gets past the ban and draws on the bucket. */
  predicate ReachesBucket(b: Option<Bucket>, clock: Clock) {
    b.None? || !StillBanned(b.value, clock.banCheck)
  }

  function Checked(b: Option<Bucket>, pubkey: string, clock: Clock): (Bucket, Verdict) {
    if !ReachesBucket(b, clock) then (b.value, Banned)
    else
      var open := Opened(b, clock);
      Spent(Refilled(open.(pubkeys := Noted(open.pubkeys, pubkey)), clock.now), clock.now)
  }

  function Noted(pubkeys: set<string>, pubkey: string): set<string> {
    if pubkey != "" then pubkeys + {pubkey} else pubkeys
  }

  // ---------- all addresses ----------

  datatype Limiters = Limiters(buckets: map<string, Bucket>, rateLimitedCount: int)

  function BucketOf(s: Limiters, ip: string): Option<Bucket> {
    if ip in s.buckets then Some(s.buckets[ip]) else None
  }

  function AfterCheck(s: Limiters, ip: string, pubkey: string, clock: Clock): Limiters {
    var r := Checked(BucketOf(s, ip), pubkey, clock);
    Limiters(s.buckets[ip := r.0],
             if ReachesBucket(BucketOf(s, ip), clock) && r.1 != Allowed then s.rateLimitedCount + 1 else s.rateLimitedCount)
  }

  function AfterProbe(s: Limiters, ip: string, at: real): Limiters {
    if ip in s.buckets then s.(buckets := s.buckets[ip := BanChecked(s.buckets[ip], at)]) else s
  }

  class RateLimiter {
    var ipLimiters: map<string, Bucket>
    var rateLimitedCount: int

    ghost function State(): Limiters
      reads this
    {
      Limiters(ipLimiters, rateLimitedCount)
    }

    constructor ()
      ensures State() == Limiters(map[], 0)
    {
      ipLimiters, rateLimitedCount := map[], 0;
    }

    method IsIPBanned(ip: string, at: real) returns (banned: bool)
      modifies this
      ensures State() == AfterProbe(old(State()), ip, at)
      ensures banned <==> ip in old(ipLimiters) && StillBanned(old(ipLimiters)[ip], at)
    {
      if ip !in ipLimiters {
        return false;
      }
      var lim := ipLimiters[ip];
      if lim.bannedAt.None? {
        assert ipLimiters[ip := lim] == ipLimiters;
        return false;
      }
      if at - lim.bannedAt.value > BAN_SECONDS {
        ipLimiters := ipLimiters[ip := lim.(bannedAt := None, violations := 0)];
        return false;
      }
      assert ipLimiters[ip := lim] == ipLimiters;
      return true;
    }

    method CheckRate(clientIP: string, pubkey: string, clock: Clock) returns (verdict: Verdict)
      modifies this
      ensures State() == AfterCheck(old(State()), clientIP, pubkey, clock)
      ensures verdict == Checked(BucketOf(old(State()), clientIP), pubkey, clock).1
    {
      ghost var before := ipLimiters;
      var banned := IsIPBanned(clientIP, clock.banCheck);
      if banned {
        return Banned;
      }
      if clientIP !in ipLimiters {
        ipLimiters := ipLimiters[clientIP := Bucket(BURST, clock.created, 0, None, {})];
      }
      var lim := ipLimiters[clientIP];
      if pubkey != "" {
        lim := lim.(pubkeys := lim.pubkeys + {pubkey});
      }
      var elapsed := clock.now - lim.lastRefill;
      lim := lim.(tokens := lim.tokens + Regained(elapsed));
      if lim.tokens > BURST {
        lim := lim.(tokens := BURST);
      }
      lim := lim.(lastRefill := clock.now);
      if lim.tokens < 1.0 {
        lim := lim.(violations := lim.violations + 1);
        rateLimitedCount := rateLimitedCount + 1;
        if lim.violations >= BAN_VIOLATIONS {
          lim := lim.(bannedAt := Some(clock.now));
          verdict := Banned;
        } else {
          verdict := Limited;
        }
      } else {
        lim := lim.(tokens := lim.tokens - 1.0);
        verdict := Allowed;
      }
      ipLimiters := ipLimiters[clientIP := lim];
      assert ipLimiters == before[clientIP := lim];
    }
  }
}
