/** The search node's rate limiter, with times and tokens as reals, against what a
    rate limit means: no window may see more than a burst and its length's worth. */
module TokenBucket {
  import opened Wrappers

  datatype Rate = Rate(perSecond: real, capacity: real)

  datatype Bucket = Bucket(tokens: real, lastRefill: real)

  /** A call that was let through. */
  datatype Grant = Grant(time: real, tokens: real)

  function Refilled(r: Rate, b: Bucket, now: real): real {
    var t := b.tokens + (now - b.lastRefill) * r.perSecond;
    if t < r.capacity then t else r.capacity
  }

  /** A path's first call finds a full bucket, made at `created`. */
  function Consumed(r: Rate, b: Option<Bucket>, tokens: real, created: real, now: real): (Bucket, bool) {
    var current := Refilled(r, if b.Some? then b.value else Bucket(r.capacity, created), now);
    if current >= tokens then (Bucket(current - tokens, now), true) else (Bucket(current, now), false)
  }

  /** Tokens granted from `start` on. */
  function Spent(grants: seq<Grant>, start: real): real {
    if grants == [] then 0.0
    else
      var last := grants[|grants| - 1];
      Spent(grants[..|grants| - 1], start) + if last.time >= start then last.tokens else 0.0
  }

  /** Letting `tokens` through at `now` keeps every window that ends now within a
      full bucket and what flows in over its length. */
  ghost predicate FitsEveryWindow(r: Rate, grants: seq<Grant>, tokens: real, now: real) {
    forall start :: start <= now ==> Spent(grants, start) + tokens <= Allowance(r, now, start)
  }

  function Allowance(r: Rate, now: real, start: real): real { r.capacity + r.perSecond * (now - start) }

  /** The level is what the tightest window leaves. */
  ghost predicate IsLevel(r: Rate, grants: seq<Grant>, level: real, now: real) {
    && level <= r.capacity
    && (forall start :: start <= now ==> level <= Allowance(r, now, start) - Spent(grants, start))
    && (exists start :: start <= now && level == Allowance(r, now, start) - Spent(grants, start))
    && (forall i :: 0 <= i < |grants| ==> grants[i].time <= now)
  }

  lemma {:induction false} NothingSpentAfter(grants: seq<Grant>, start: real)
    requires forall i :: 0 <= i < |grants| ==> grants[i].time < start
    ensures Spent(grants, start) == 0.0
  {
    if grants != [] { NothingSpentAfter(grants[..|grants| - 1], start); }
  }

  lemma SpentOneMore(grants: seq<Grant>, g: Grant, start: real)
    ensures Spent(grants + [g], start) == Spent(grants, start) + if g.time >= start then g.tokens else 0.0
  {
    assert (grants + [g])[..|grants|] == grants;
  }

  lemma Shift(r: Rate, now: real, later: real, start: real)
    ensures Allowance(r, later, start) == Allowance(r, now, start) + (later - now) * r.perSecond
    ensures Allowance(r, now, now) == r.capacity
  {
  }

  lemma Product(a: real, b: real)
    requires a >= 0.0 && b >= 0.0
    ensures a * b >= 0.0
  {
  }

  /** Refilling keeps the level exact. */
  lemma RefillKeepsLevel(r: Rate, grants: seq<Grant>, b: Bucket, now: real)
    requires r.perSecond >= 0.0 && b.lastRefill <= now && IsLevel(r, grants, b.tokens, b.lastRefill)
    ensures IsLevel(r, grants, Refilled(r, b, now), now)
  {
    hide Spent, Allowance;
    var level := Refilled(r, b, now);
    Product(now - b.lastRefill, r.perSecond);
    Shift(r, now, now, now);
    forall start | start <= now ensures level <= Allowance(r, now, start) - Spent(grants, start) {
      if start <= b.lastRefill {
        Shift(r, b.lastRefill, now, start);
      } else {
        NothingSpentAfter(grants, start);
        Flow(r, now, start);
      }
    }
    if level < r.capacity || now == b.lastRefill {
      var start :| start <= b.lastRefill && b.tokens == Allowance(r, b.lastRefill, start) - Spent(grants, start);
      Shift(r, b.lastRefill, now, start);
      assert level == Allowance(r, now, start) - Spent(grants, start);
    } else {
      NothingSpentAfter(grants, now);
      assert level == Allowance(r, now, now) - Spent(grants, now);
    }
  }

  lemma Flow(r: Rate, now: real, start: real)
    requires r.perSecond >= 0.0 && start <= now
    ensures Allowance(r, now, start) >= r.capacity
  {
    Product(r.perSecond, now - start);
  }

  lemma FullIsLevel(r: Rate, now: real)
    requires r.perSecond >= 0.0
    ensures IsLevel(r, [], r.capacity, now)
  {
    hide Allowance;
    Shift(r, now, now, now);
    assert r.capacity == Allowance(r, now, now) - Spent([], now);
    forall start | start <= now
      ensures r.capacity <= Allowance(r, now, start) - Spent([], start)
    {
      Flow(r, now, start);
    }
  }

  /** A level answers for every window at once. */
  lemma LevelDecides(r: Rate, grants: seq<Grant>, level: real, tokens: real, now: real)
    requires IsLevel(r, grants, level, now)
    ensures level >= tokens <==> FitsEveryWindow(r, grants, tokens, now)
  {
    hide Spent, Allowance;
    var start :| start <= now && level == Allowance(r, now, start) - Spent(grants, start);
    if FitsEveryWindow(r, grants, tokens, now) {
      assert Spent(grants, start) + tokens <= Allowance(r, now, start);
    }
  }

  lemma GrantKeepsLevel(r: Rate, grants: seq<Grant>, level: real, tokens: real, now: real)
    requires IsLevel(r, grants, level, now) && tokens >= 0.0
    ensures IsLevel(r, grants + [Grant(now, tokens)], level - tokens, now)
  {
    hide Spent, Allowance;
    var grants' := grants + [Grant(now, tokens)];
    forall start | start <= now ensures Spent(grants', start) == Spent(grants, start) + tokens {
      SpentOneMore(grants, Grant(now, tokens), start);
    }
    var start :| start <= now && level == Allowance(r, now, start) - Spent(grants, start);
    assert level - tokens == Allowance(r, now, start) - Spent(grants', start);
  }

  // ----- Runs -----

  /** One call on a path; `created` is read only if the path has no bucket yet. */
  datatype Call = Call(tokens: real, created: real, now: real)

  ghost predicate TimesRise(calls: seq<Call>) {
    && (forall i :: 0 <= i < |calls| ==> calls[i].created <= calls[i].now && calls[i].tokens >= 0.0)
    && (forall i :: 0 < i < |calls| ==> calls[i - 1].now <= calls[i].now)
  }

  function BucketAfter(r: Rate, calls: seq<Call>): Option<Bucket> {
    if calls == [] then None
    else
      var last := calls[|calls| - 1];
      Some(Consumed(r, BucketAfter(r, calls[..|calls| - 1]), last.tokens, last.created, last.now).0)
  }

  function GrantsOf(r: Rate, calls: seq<Call>): seq<Grant> {
    if calls == [] then []
    else
      var before, last := calls[..|calls| - 1], calls[|calls| - 1];
      GrantsOf(r, before)
        + if Consumed(r, BucketAfter(r, before), last.tokens, last.created, last.now).1
            then [Grant(last.now, last.tokens)] else []
  }

  lemma ConsumeKeepsLevel(r: Rate, grants: seq<Grant>, b: Option<Bucket>, c: Call)
    requires r.perSecond >= 0.0 && c.tokens >= 0.0 && c.created <= c.now
    requires if b.Some? then b.value.lastRefill <= c.now && IsLevel(r, grants, b.value.tokens, b.value.lastRefill)
               else grants == []
    ensures var (b', ok) := Consumed(r, b, c.tokens, c.created, c.now);
            && (ok <==> FitsEveryWindow(r, grants, c.tokens, c.now))
            && b'.lastRefill == c.now
                 && IsLevel(r, grants + (if ok then [Grant(c.now, c.tokens)] else []), b'.tokens, c.now)
  {
    hide IsLevel, Refilled, FitsEveryWindow;
    var bucket := if b.Some? then b.value else Bucket(r.capacity, c.created);
    FullIsLevel(r, c.created);
    RefillKeepsLevel(r, grants, bucket, c.now);
    var level := Refilled(r, bucket, c.now);
    LevelDecides(r, grants, level, c.tokens, c.now);
    GrantKeepsLevel(r, grants, level, c.tokens, c.now);
    assert grants + [] == grants;
  }

  lemma {:induction false} RunKeepsLevel(r: Rate, calls: seq<Call>)
    requires r.perSecond >= 0.0 && TimesRise(calls) && calls != []
    ensures var b := BucketAfter(r, calls).value;
            b.lastRefill == calls[|calls| - 1].now && IsLevel(r, GrantsOf(r, calls), b.tokens, b.lastRefill)
  {
    hide IsLevel, Consumed, FitsEveryWindow;
    var n := |calls| - 1;
    if n > 0 { RunKeepsLevel(r, calls[..n]); }
    ConsumeKeepsLevel(r, GrantsOf(r, calls[..n]), BucketAfter(r, calls[..n]), calls[n]);
  }

  /** On every run with times that do not go back, a call is let through exactly
      if that keeps every window that ends with it within bounds. */
  lemma GrantedIff(r: Rate, calls: seq<Call>, c: Call)
    requires r.perSecond >= 0.0 && TimesRise(calls + [c])
    ensures Consumed(r, BucketAfter(r, calls), c.tokens, c.created, c.now).1 <==>
              FitsEveryWindow(r, GrantsOf(r, calls), c.tokens, c.now)
  {
    hide IsLevel, Consumed, FitsEveryWindow;
    var all := calls + [c];
    assert all[|calls|] == c && forall i :: 0 <= i < |calls| ==> all[i] == calls[i];
    if calls != [] {
      assert all[|calls| - 1].now <= all[|calls|].now;
      assert TimesRise(calls);
      RunKeepsLevel(r, calls);
    }
    ConsumeKeepsLevel(r, GrantsOf(r, calls), BucketAfter(r, calls), c);
  }

  class TokenBucketRateLimiter {
    var buckets: map<string, Bucket>
    const rateConfig: map<string, Rate>
    const defaultRate: Rate
    /** What has been let through on each path. */
    ghost var granted: map<string, seq<Grant>>

    constructor ()
      ensures Valid() && buckets == map[] && granted == map[]
      ensures RateOf("/query") == Rate(100.0, 100.0) && RateOf("/index_document") == Rate(50.0, 50.0)
      ensures RateOf("/p2p/search") == RateOf("/p2p/index_vector") == Rate(200.0, 200.0)
      ensures forall path: string ::
                path !in ["/query", "/index_document", "/p2p/search", "/p2p/index_vector"] ==>
                  RateOf(path) == Rate(50.0, 50.0)
    {
      buckets, granted := map[], map[];
      rateConfig := map["/query" := Rate(100.0, 100.0), "/index_document" := Rate(50.0, 50.0),
                        "/p2p/search" := Rate(200.0, 200.0), "/p2p/index_vector" := Rate(200.0, 200.0)];
      defaultRate := Rate(50.0, 50.0);
    }

    function RateOf(path: string): Rate { if path in rateConfig then rateConfig[path] else defaultRate }

    ghost function GrantedOn(path: string): seq<Grant>
      reads `granted
    {
      if path in granted then granted[path] else []
    }

    ghost predicate Valid()
      reads this
    {
      forall path: string :: RateOf(path).perSecond >= 0.0 &&
        if path in buckets then IsLevel(RateOf(path), GrantedOn(path), buckets[path].tokens, buckets[path].lastRefill)
        else GrantedOn(path) == []
    }

    static method Refill(r: Rate, bucket: Bucket, now: real) returns (currentTokens: real)
      ensures currentTokens == Refilled(r, bucket, now)
    {
      var elapsed := now - bucket.lastRefill;
      currentTokens := bucket.tokens + elapsed * r.perSecond;
      if currentTokens >= r.capacity {
        currentTokens := r.capacity;
      }
    }

    /** `created` and `now` are the two readings of the clock. */
    method Consume(path: string, tokens: real, created: real, now: real) returns (ok: bool)
      requires Valid() && tokens >= 0.0 && created <= now && (path in buckets ==> buckets[path].lastRefill <= now)
      modifies this
      ensures Valid()
      ensures ok <==> FitsEveryWindow(RateOf(path), old(GrantedOn(path)), tokens, now)
      ensures granted == old(granted)[path := old(GrantedOn(path)) + if ok then [Grant(now, tokens)] else []]
      ensures path in buckets && buckets[path].lastRefill == now
      ensures forall other :: other != path ==> (other in buckets <==> other in old(buckets))
      ensures forall other :: other != path && other in buckets ==> buckets[other] == old(buckets)[other]
    {
      hide IsLevel, FitsEveryWindow, Refilled;
      var r := RateOf(path);
      ConsumeKeepsLevel(r, GrantedOn(path), if path in buckets then Some(buckets[path])
          else None, Call(tokens, created, now));
      if path !in buckets {
        buckets := buckets[path := Bucket(r.capacity, created)];
      }
      var currentTokens := Refill(r, buckets[path], now);
      ok := currentTokens >= tokens;
      if ok {
        currentTokens := currentTokens - tokens;
      }
      buckets := buckets[path := Bucket(currentTokens, now)];
      granted := granted[path := GrantedOn(path) + if ok then [Grant(now, tokens)] else []];
    }
  }
}
