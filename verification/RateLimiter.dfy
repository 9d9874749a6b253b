/** The rate limiting middleware: one token bucket per key, and a ticker that
    evicts idle keys. Times are integer nanoseconds. A bucket's level is counted
    in units of 1/window token, so one token is `window` units and refilling
    earns `requests` units a nanosecond, exactly. */
module RateLimiter {

  datatype Settings = Settings(requests: int, window: int, burst: int)

  type Limits = c: Settings | 0 < c.requests && 0 < c.window && 0 < c.burst
    witness Settings(1, 1, 1)

  const MINUTE := 60_000_000_000

  function WithDefaults(cfg: Settings): (c: Limits)
    ensures cfg.requests <= 0 ==> c.requests == 100
    ensures cfg.window <= 0 ==> c.window == 60 * 1_000_000_000
    ensures cfg.burst <= 0 ==> c.burst == c.requests
    ensures cfg.requests > 0 ==> c.requests == cfg.requests
    ensures cfg.window > 0 ==> c.window == cfg.window
    ensures cfg.burst > 0 ==> c.burst == cfg.burst
  {
    var requests := if cfg.requests <= 0 then 100 else cfg.requests;
    var window := if cfg.window <= 0 then MINUTE else cfg.window;
    Settings(requests, window, if cfg.burst <= 0 then requests else cfg.burst)
  }

  datatype Bucket = Bucket(level: int, last: int)

  datatype Visitor = Visitor(bucket: Bucket, lastSeen: int)

  type Table = map<string, Visitor>

  function Capacity(c: Limits): int {
    c.burst * c.window
  }

  function Earned(c: Limits, time: int): int {
    time * c.requests
  }

  /** Level of a bucket at time t. */
  function LevelAt(c: Limits, b: Bucket, t: int): int {
    var level := b.level + Earned(c, t - b.last);
    if level <= Capacity(c) then level else Capacity(c)
  }

  /** Limiter.Allow: a refused request leaves the bucket as it was. */
  function Allow(c: Limits, b: Bucket, t: int): (Bucket, bool) {
    var level := LevelAt(c, b, t);
    if c.window <= level then (Bucket(level - c.window, t), true) else (b, false)
  }

  function BucketOf(c: Limits, v: Table, key: string, t: int): Bucket {
    if key in v then v[key].bucket else Bucket(Capacity(c), t)
  }

  function Handle(c: Limits, v: Table, key: string, t: int): (Table, bool) {
    var (b, ok) := Allow(c, BucketOf(c, v, key, t), t);
    (v[key := Visitor(b, t)], ok)
  }

  predicate Idle(c: Limits, visitor: Visitor, t: int) {
    visitor.lastSeen < t - c.window * 2
  }

  function Cleanup(c: Limits, v: Table, t: int): Table {
    map key | key in v && !Idle(c, v[key], t) :: v[key]
  }

  /** The middleware's mutable state and its two entry points. */
  class Limiter {
    const c: Limits
    var visitors: Table

    constructor (cfg: Settings)
      ensures visitors == map[] && c == WithDefaults(cfg)
    {
      c := WithDefaults(cfg);
      visitors := map[];
    }

    method GetVisitor(key: string, t: int) returns (b: Bucket)
      modifies this
      ensures b == BucketOf(c, old(visitors), key, t)
      ensures visitors == old(visitors)[key := Visitor(b, t)]
    {
      if key in visitors {
        b := visitors[key].bucket;
        visitors := visitors[key := Visitor(b, t)];
        return;
      }
      b := Bucket(Capacity(c), t);
      visitors := visitors[key := Visitor(b, t)];
    }

    method Request(key: string, t: int) returns (admitted: bool)
      modifies this
      ensures (visitors, admitted) == Handle(c, old(visitors), key, t)
    {
      var b := GetVisitor(key, t);
      var (after, ok) := Allow(c, b, t);
      visitors := visitors[key := Visitor(after, t)];
      assert visitors == old(visitors)[key := Visitor(after, t)];
      admitted := ok;
    }

    method Tick(t: int)
      modifies this
      ensures visitors == Cleanup(c, old(visitors), t)
    {
      var cutoff := t - c.window * 2;
      var keys := visitors.Keys;
      while keys != {}
        invariant keys <= visitors.Keys <= old(visitors).Keys
        invariant forall k :: k in visitors ==> visitors[k] == old(visitors)[k]
        invariant forall k :: k in old(visitors) && k !in keys ==>
                    (k in visitors <==> !Idle(c, old(visitors)[k], t))
        decreases keys
      {
        var key :| key in keys;
        keys := keys - {key};
        if visitors[key].lastSeen < cutoff {
          visitors := visitors - {key};
        }
      }
    }
  }

  // ----- runs -----

  datatype Event = Request(key: string, at: int) | Tick(at: int)

  /** With evict = false the ticker does nothing: the limiter that never forgets. */
  function Apply(c: Limits, v: Table, e: Event, evict: bool): (Table, bool) {
    match e
    case Request(key, at) => Handle(c, v, key, at)
    case Tick(at) => (if evict then Cleanup(c, v, at) else v, false)
  }

  function After(c: Limits, v: Table, es: seq<Event>, evict: bool): Table
    decreases |es|
  {
    if es == [] then v else After(c, Apply(c, v, es[0], evict).0, es[1..], evict)
  }

  /** One verdict per event; ticks admit nothing. */
  function Verdicts(c: Limits, v: Table, es: seq<Event>, evict: bool): (r: seq<bool>)
    ensures |r| == |es|
    decreases |es|
  {
    if es == [] then []
    else
      var (v', ok) := Apply(c, v, es[0], evict);
      [ok] + Verdicts(c, v', es[1..], evict)
  }

  /** Event times do not decrease and lie in start..stop. */
  predicate Ordered(es: seq<Event>, start: int, stop: int)
    decreases |es|
  {
    es == [] || (start <= es[0].at <= stop && Ordered(es[1..], es[0].at, stop))
  }

  // ----- when eviction is invisible -----

  /** An idle key is forgotten after more than two windows; by then its bucket
      must have refilled from empty. */
  predicate RefillsBeforeEviction(c: Limits) {
    Capacity(c) <= Earned(c, 2 * c.window + 1)
  }

  predicate ValidAt(v: Table, now: int) {
    forall k :: k in v ==> 0 <= v[k].bucket.level && v[k].bucket.last <= v[k].lastSeen <= now
  }

  /** v agrees with w except for keys it has forgotten, whose buckets in w are full. */
  predicate Forgets(c: Limits, v: Table, w: Table, now: int) {
    && (forall k :: k in v ==> k in w && v[k] == w[k])
    && (forall k :: k in w && k !in v ==> LevelAt(c, w[k].bucket, now) == Capacity(c))
  }

  lemma EarnedMonotone(c: Limits, a: int, b: int)
    requires a <= b
    ensures Earned(c, a) <= Earned(c, b)
  {
  }

  lemma EarnedAdds(c: Limits, a: int, b: int)
    ensures Earned(c, a + b) == Earned(c, a) + Earned(c, b)
  {
  }

  lemma LevelGrows(c: Limits, b: Bucket, s: int, t: int)
    requires s <= t
    ensures LevelAt(c, b, s) <= LevelAt(c, b, t) <= LevelAt(c, b, s) + Earned(c, t - s)
  {
    EarnedMonotone(c, 0, t - s);
    EarnedAdds(c, s - b.last, t - s);
    assert (s - b.last) + (t - s) == t - b.last;
  }

  lemma OneTokenFits(c: Limits)
    ensures c.window <= Capacity(c)
  {
    assert 1 * c.window <= c.burst * c.window;
  }

  lemma ApplyForgets(c: Limits, v: Table, w: Table, now: int, e: Event)
    requires RefillsBeforeEviction(c)
    requires now <= e.at && ValidAt(w, now) && Forgets(c, v, w, now)
    ensures var (v', ok) := Apply(c, v, e, true);
            var (w', ok') := Apply(c, w, e, false);
            ok == ok' && ValidAt(w', e.at) && Forgets(c, v', w', e.at)
  {
    forall k | k in w && k !in v ensures LevelAt(c, w[k].bucket, e.at) == Capacity(c) {
      LevelGrows(c, w[k].bucket, now, e.at);
    }
    if e.Tick? {
      forall k | k in v && Idle(c, v[k], e.at) ensures LevelAt(c, w[k].bucket, e.at) == Capacity(c) {
        EarnedMonotone(c, 2 * c.window + 1, e.at - w[k].bucket.last);
      }
    } else {
      OneTokenFits(c);
      assert LevelAt(c, Bucket(Capacity(c), e.at), e.at) == Capacity(c);
    }
  }

  lemma {:induction false} RunForgets(c: Limits, v: Table, w: Table, now: int, stop: int, es: seq<Event>)
    requires RefillsBeforeEviction(c)
    requires Ordered(es, now, stop) && now <= stop && ValidAt(w, now) && Forgets(c, v, w, now)
    ensures Verdicts(c, v, es, true) == Verdicts(c, w, es, false)
    decreases |es|
  {
    if es != [] {
      ApplyForgets(c, v, w, now, es[0]);
      RunForgets(c, Apply(c, v, es[0], true).0, Apply(c, w, es[0], false).0, es[0].at, stop, es[1..]);
    }
  }

  // ----- when it shows -----

  const K := "k"

  function Flood(n: nat, t: int): (es: seq<Event>)
    ensures |es| == n
  {
    if n == 0 then [] else [Request(K, t)] + Flood(n - 1, t)
  }

  /** A full burst just before the first tick, and another at the tick that evicts. */
  function TwoBursts(c: Limits): seq<Event> {
    Flood(c.burst, c.window - 1)
    + [Tick(c.window), Tick(2 * c.window), Tick(3 * c.window)]
    + Flood(c.burst, 3 * c.window)
  }

  predicate AllAdmitted(verdicts: seq<bool>) {
    forall i :: 0 <= i < |verdicts| ==> verdicts[i]
  }

  lemma AllAdmittedCons(ok: bool, rest: seq<bool>)
    ensures AllAdmitted([ok] + rest) <==> ok && AllAdmitted(rest)
  {
    if AllAdmitted([ok] + rest) {
      assert ([ok] + rest)[0];
      forall i | 0 <= i < |rest| ensures rest[i] {
        assert ([ok] + rest)[i + 1];
      }
    }
  }

  lemma FloodUnfolds(c: Limits, v: Table, n: nat, t: int, evict: bool)
    requires 0 < n
    ensures var (v', ok) := Handle(c, v, K, t);
            && Verdicts(c, v, Flood(n, t), evict) == [ok] + Verdicts(c, v', Flood(n - 1, t), evict)
            && After(c, v, Flood(n, t), evict) == After(c, v', Flood(n - 1, t), evict)
  {
    assert Flood(n, t)[1..] == Flood(n - 1, t);
  }

  lemma Spending(c: Limits, n: nat)
    requires 0 < n
    ensures n * c.window == (n - 1) * c.window + c.window
    ensures 0 <= (n - 1) * c.window
  {
  }

  lemma {:induction false} FloodAdmitted(c: Limits, v: Table, n: nat, t: int, evict: bool)
    requires K in v ==> v[K].bucket.last <= t
    requires 0 < n && n * c.window <= LevelAt(c, BucketOf(c, v, K, t), t)
    ensures AllAdmitted(Verdicts(c, v, Flood(n, t), evict))
    ensures After(c, v, Flood(n, t), evict)
         == v[K := Visitor(Bucket(LevelAt(c, BucketOf(c, v, K, t), t) - n * c.window, t), t)]
    decreases n
  {
    var level := LevelAt(c, BucketOf(c, v, K, t), t);
    Spending(c, n);
    FloodUnfolds(c, v, n, t, evict);
    var v' := v[K := Visitor(Bucket(level - c.window, t), t)];
    assert Handle(c, v, K, t) == (v', true);
    AllAdmittedCons(true, Verdicts(c, v', Flood(n - 1, t), evict));
    if 1 < n {
      AfterSpending(c, v', level - c.window, t);
      FloodAdmitted(c, v', n - 1, t, evict);
      assert v'[K := Visitor(Bucket(level - n * c.window, t), t)] == v[K := Visitor(Bucket(level - n * c.window, t), t)];
    }
  }

  lemma AfterSpending(c: Limits, v: Table, level: int, t: int)
    requires K in v && v[K] == Visitor(Bucket(level, t), t) && level <= Capacity(c)
    ensures LevelAt(c, BucketOf(c, v, K, t), t) == level
  {
  }

  lemma OneLess(c: Limits, n: nat, level: int)
    requires 0 < n && level < n * c.window
    ensures level - c.window < (n - 1) * c.window
  {
    assert n * c.window == (n - 1) * c.window + c.window;
  }

  /** One request more at the same instant. */
  lemma OneSpent(c: Limits, v: Table, t: int)
    requires K in v ==> v[K].bucket.last <= t
    ensures var level, (v', ok) := LevelAt(c, BucketOf(c, v, K, t), t), Handle(c, v, K, t);
            && (ok <==> c.window <= level)
            && (ok ==> K in v' && v'[K].bucket.last == t && LevelAt(c, BucketOf(c, v', K, t), t) == level - c.window)
  {
  }

  lemma {:induction false} FloodRefused(c: Limits, v: Table, n: nat, t: int, evict: bool)
    requires K in v ==> v[K].bucket.last <= t
    requires LevelAt(c, BucketOf(c, v, K, t), t) < n * c.window
    requires 0 < n
    ensures !AllAdmitted(Verdicts(c, v, Flood(n, t), evict))
    decreases n
  {
    var (v', ok) := Handle(c, v, K, t);
    OneSpent(c, v, t);
    OneLess(c, n, LevelAt(c, BucketOf(c, v, K, t), t));
    FloodUnfolds(c, v, n, t, evict);
    AllAdmittedCons(ok, Verdicts(c, v', Flood(n - 1, t), evict));
    if ok && 1 < n {
      FloodRefused(c, v', n - 1, t, evict);
    }
  }

  lemma VerdictsCons(c: Limits, v: Table, e: Event, es: seq<Event>, evict: bool)
    ensures var (v', ok) := Apply(c, v, e, evict);
            && After(c, v, [e] + es, evict) == After(c, v', es, evict)
            && Verdicts(c, v, [e] + es, evict) == [ok] + Verdicts(c, v', es, evict)
  {
    assert ([e] + es)[1..] == es;
  }

  lemma {:induction false} RunConcat(c: Limits, v: Table, a: seq<Event>, b: seq<Event>, evict: bool)
    ensures After(c, v, a + b, evict) == After(c, After(c, v, a, evict), b, evict)
    ensures Verdicts(c, v, a + b, evict) == Verdicts(c, v, a, evict) + Verdicts(c, After(c, v, a, evict), b, evict)
    decreases |a|
  {
    if a == [] {
      assert a + b == b;
    } else {
      assert a + b == [a[0]] + (a[1..] + b);
      VerdictsCons(c, v, a[0], a[1..] + b, evict);
      RunConcat(c, Apply(c, v, a[0], evict).0, a[1..], b, evict);
    }
  }

  lemma {:induction false} OrderedConcat(a: seq<Event>, b: seq<Event>, start: int, mid: int, stop: int)
    requires Ordered(a, start, mid) && Ordered(b, mid, stop) && start <= mid <= stop
    ensures Ordered(a + b, start, stop)
    decreases |a|
  {
    if a == [] {
      assert a + b == b;
      assert b != [] ==> start <= b[0].at;
    } else {
      assert (a + b)[1..] == a[1..] + b;
      OrderedConcat(a[1..], b, a[0].at, mid, stop);
    }
  }

  lemma {:induction false} FloodOrdered(n: nat, start: int, t: int)
    requires start <= t
    ensures Ordered(Flood(n, t), start, t)
  {
    if n > 0 {
      assert Flood(n, t)[1..] == Flood(n - 1, t);
      FloodOrdered(n - 1, t, t);
    }
  }

  function Ticks(c: Limits): seq<Event> {
    [Tick(c.window), Tick(2 * c.window), Tick(3 * c.window)]
  }

  lemma TwoBurstsOrdered(c: Limits)
    ensures Ordered(TwoBursts(c), c.window - 1, 3 * c.window)
  {
    var w := c.window;
    FloodOrdered(c.burst, w - 1, w - 1);
    FloodOrdered(c.burst, 3 * w, 3 * w);
    assert Ticks(c)[1..] == [Tick(2 * w), Tick(3 * w)] && Ticks(c)[1..][1..] == [Tick(3 * w)];
    assert Ordered([Tick(3 * w)], 2 * w, 3 * w);
    assert Ordered([Tick(2 * w), Tick(3 * w)], w, 3 * w);
    assert Ordered(Ticks(c), w - 1, 3 * w);
    OrderedConcat(Flood(c.burst, w - 1), Ticks(c), w - 1, w - 1, 3 * w);
    OrderedConcat(Flood(c.burst, w - 1) + Ticks(c), Flood(c.burst, 3 * w), w - 1, 3 * w, 3 * w);
  }

  /** The table before the second burst: emptied by the third tick, or kept. */
  lemma AfterTicks(c: Limits, evict: bool)
    ensures var v := After(c, map[], Flood(c.burst, c.window - 1), evict);
            && AllAdmitted(Verdicts(c, map[], Flood(c.burst, c.window - 1), evict))
            && Verdicts(c, v, Ticks(c), evict) == [false, false, false]
            && After(c, v, Ticks(c), evict)
            == if evict then map[] else map[K := Visitor(Bucket(0, c.window - 1), c.window - 1)]
  {
    var t := c.window - 1;
    assert LevelAt(c, Bucket(Capacity(c), t), t) == Capacity(c);
    FloodAdmitted(c, map[], c.burst, t, evict);
    var v := After(c, map[], Flood(c.burst, t), evict);
    assert v == map[K := Visitor(Bucket(0, t), t)];
    assert Ticks(c)[1..] == [Tick(2 * c.window), Tick(3 * c.window)];
    assert Ticks(c)[1..][1..] == [Tick(3 * c.window)];
    assert Cleanup(c, v, c.window) == v && Cleanup(c, v, 2 * c.window) == v && Cleanup(c, v, 3 * c.window) == map[];
    var e1, e2, e3 := Ticks(c)[0], Ticks(c)[1], Ticks(c)[2];
    assert Apply(c, v, e1, evict) == (v, false) && Apply(c, v, e2, evict) == (v, false);
    assert After(c, v, [e3], evict) == Apply(c, v, e3, evict).0;
    assert After(c, v, [e2, e3], evict) == After(c, v, [e3], evict);
    assert Verdicts(c, v, [e3], evict) == [false];
    assert Verdicts(c, v, [e2, e3], evict) == [false, false];
  }

  /** The second burst passes whole where the key was forgotten or had refilled. */
  lemma SecondBurst(c: Limits, v: Table, evict: bool)
    requires v == if evict then map[] else map[K := Visitor(Bucket(0, c.window - 1), c.window - 1)]
    ensures AllAdmitted(Verdicts(c, v, Flood(c.burst, 3 * c.window), evict))
            == (evict || RefillsBeforeEviction(c))
  {
    var t := 3 * c.window;
    var b := BucketOf(c, v, K, t);
    assert evict ==> LevelAt(c, b, t) == Capacity(c);
    assert !evict ==> b == Bucket(0, c.window - 1) && t - b.last == 2 * c.window + 1;
    if c.burst * c.window <= LevelAt(c, b, t) {
      FloodAdmitted(c, v, c.burst, t, evict);
    } else {
      FloodRefused(c, v, c.burst, t, evict);
    }
  }

  /** Admission of the second burst separates the two limiters. */
  lemma TwoBurstsVerdicts(c: Limits, evict: bool) returns (head: seq<bool>, tail: seq<bool>)
    ensures |head| == c.burst + 3 && |tail| == c.burst
    ensures Verdicts(c, map[], TwoBursts(c), evict) == head + tail
    ensures AllAdmitted(head[..c.burst])
    ensures AllAdmitted(tail) == (evict || RefillsBeforeEviction(c))
  {
    var first, second := Flood(c.burst, c.window - 1), Flood(c.burst, 3 * c.window);
    AfterTicks(c, evict);
    RunConcat(c, map[], first, Ticks(c), evict);
    RunConcat(c, map[], first + Ticks(c), second, evict);
    var v := After(c, map[], first + Ticks(c), evict);
    head := Verdicts(c, map[], first + Ticks(c), evict);
    tail := Verdicts(c, v, second, evict);
    assert head[..c.burst] == Verdicts(c, map[], first, evict);
    SecondBurst(c, v, evict);
  }

  /** Both limiters decide every event of an ordered run alike. */
  predicate SameDecisions(c: Limits, es: seq<Event>, start: int, stop: int) {
    Ordered(es, start, stop) ==> Verdicts(c, map[], es, true) == Verdicts(c, map[], es, false)
  }

  lemma EvictionNeverShows(c: Limits, es: seq<Event>, start: int, stop: int)
    requires RefillsBeforeEviction(c)
    ensures SameDecisions(c, es, start, stop)
  {
    if Ordered(es, start, stop) && es != [] {
      RunForgets(c, map[], map[], start, stop, es);
    }
  }

  lemma EvictionShows(c: Limits)
    requires !RefillsBeforeEviction(c)
    ensures !SameDecisions(c, TwoBursts(c), c.window - 1, 3 * c.window)
  {
    TwoBurstsOrdered(c);
    var head, tail := TwoBurstsVerdicts(c, true);
    var head', tail' := TwoBurstsVerdicts(c, false);
    assert (head + tail)[c.burst + 3..] == tail && (head' + tail')[c.burst + 3..] == tail';
  }

  /** Eviction changes no decision in any run exactly when a drained bucket
      refills before its key can be evicted. */
  lemma EvictionInvisible(c: Limits)
    ensures RefillsBeforeEviction(c) <==> forall es, start, stop :: SameDecisions(c, es, start, stop)
  {
    if RefillsBeforeEviction(c) {
      forall es, start, stop ensures SameDecisions(c, es, start, stop) {
        EvictionNeverShows(c, es, start, stop);
      }
    } else {
      EvictionShows(c);
    }
  }

  /** For rates below one request a nanosecond the threshold is burst = 2 * requests. */
  lemma BurstThreshold(c: Limits)
    ensures c.burst <= 2 * c.requests ==> RefillsBeforeEviction(c)
    ensures c.requests < c.window ==> (RefillsBeforeEviction(c) <==> c.burst <= 2 * c.requests)
  {
    assert Earned(c, 2 * c.window + 1) == 2 * c.requests * c.window + c.requests;
    if c.burst <= 2 * c.requests {
      assert c.burst * c.window <= 2 * c.requests * c.window;
    } else {
      assert (2 * c.requests + 1) * c.window <= c.burst * c.window;
      assert (2 * c.requests + 1) * c.window == 2 * c.requests * c.window + c.window;
    }
  }

  /** With the burst left to its default, eviction never shows. */
  lemma DefaultBurstIsSafe(cfg: Settings)
    requires cfg.burst <= 0
    ensures RefillsBeforeEviction(WithDefaults(cfg))
  {
    BurstThreshold(WithDefaults(cfg));
  }

  // ----- the rate bound -----

  function Admitted(key: string, es: seq<Event>, verdicts: seq<bool>): nat
    requires |es| == |verdicts|
  {
    if es == [] then 0
    else (if es[0] == Request(key, es[0].at) && verdicts[0] then 1 else 0) + Admitted(key, es[1..], verdicts[1..])
  }

  /** What a key may still spend at time t. */
  function Credit(c: Limits, v: Table, key: string, t: int): int {
    if key in v then LevelAt(c, v[key].bucket, t) else Capacity(c)
  }

  lemma CreditGrows(c: Limits, v: Table, key: string, s: int, t: int)
    requires s <= t
    ensures Credit(c, v, key, t) <= Credit(c, v, key, s) + Earned(c, t - s)
  {
    EarnedMonotone(c, 0, t - s);
    if key in v {
      LevelGrows(c, v[key].bucket, s, t);
    }
  }

  lemma {:induction false} CreditBoundsAdmissions(c: Limits, v: Table, key: string, now: int, stop: int, es: seq<Event>)
    requires ValidAt(v, now) && now <= stop && Ordered(es, now, stop)
    ensures Admitted(key, es, Verdicts(c, v, es, false)) * c.window
         <= Credit(c, v, key, now) + Earned(c, stop - now)
    decreases |es|
  {
    if es == [] {
      EarnedMonotone(c, 0, stop - now);
      assert 0 <= Credit(c, v, key, now) by {
        OneTokenFits(c);
        if key in v {
          EarnedMonotone(c, 0, now - v[key].bucket.last);
        }
      }
    } else {
      var t := es[0].at;
      var (v', ok) := Apply(c, v, es[0], false);
      CreditGrows(c, v, key, now, t);
      EarnedAdds(c, t - now, stop - t);
      assert (t - now) + (stop - t) == stop - now;
      OneTokenFits(c);
      var rest := Admitted(key, es[1..], Verdicts(c, v', es[1..], false));
      var spent := if es[0] == Request(key, t) && ok then 1 else 0;
      assert Verdicts(c, v, es, false)[1..] == Verdicts(c, v', es[1..], false);
      assert Admitted(key, es, Verdicts(c, v, es, false)) == spent + rest;
      assert (spent + rest) * c.window == spent * c.window + rest * c.window;
      assert Credit(c, v', key, t) + spent * c.window <= Credit(c, v, key, t);
      assert ValidAt(v', t);
      CreditBoundsAdmissions(c, v', key, t, stop, es[1..]);
    }
  }

  lemma {:induction false} AfterValid(c: Limits, v: Table, now: int, stop: int, es: seq<Event>)
    requires ValidAt(v, now) && now <= stop && Ordered(es, now, stop)
    ensures ValidAt(After(c, v, es, false), stop)
    decreases |es|
  {
    if es != [] {
      OneTokenFits(c);
      var v' := Apply(c, v, es[0], false).0;
      assert ValidAt(v', es[0].at) by {
        if es[0].Request? && es[0].key in v {
          EarnedMonotone(c, 0, es[0].at - v[es[0].key].bucket.last);
        }
      }
      AfterValid(c, v', es[0].at, stop, es[1..]);
    }
  }

  /** Of the requests for one key in from..to, at most the burst plus what the
      interval earns is admitted, whatever ran before. */
  predicate RateIsBounded(c: Limits, key: string, before: seq<Event>, during: seq<Event>,
                          start: int, from: int, to: int)
  {
    start <= from <= to && Ordered(before, start, from) && Ordered(during, from, to) ==>
      Admitted(key, during, Verdicts(c, After(c, map[], before, true), during, true)) * c.window
      <= Capacity(c) + Earned(c, to - from)
  }

  lemma RateBound(c: Limits, key: string, before: seq<Event>, during: seq<Event>, start: int, from: int, to: int)
    requires RefillsBeforeEviction(c)
    ensures RateIsBounded(c, key, before, during, start, from, to)
  {
    if start <= from <= to && Ordered(before, start, from) && Ordered(during, from, to) {
      OrderedConcat(before, during, start, from, to);
      EvictionNeverShows(c, before + during, start, to);
      RunConcat(c, map[], before, during, true);
      RunConcat(c, map[], before, during, false);
      var v := After(c, map[], before, false);
      var n := |before|;
      assert Verdicts(c, After(c, map[], before, true), during, true)
          == Verdicts(c, map[], before + during, true)[n..]
          == Verdicts(c, map[], before + during, false)[n..]
          == Verdicts(c, v, during, false);
      AfterValid(c, map[], start, from, before);
      CreditBoundsAdmissions(c, v, key, from, to, during);
    }
  }

  lemma {:induction false} AdmittedConcat(key: string, a: seq<Event>, x: seq<bool>, b: seq<Event>, y: seq<bool>)
    requires |a| == |x| && |b| == |y|
    ensures Admitted(key, a + b, x + y) == Admitted(key, a, x) + Admitted(key, b, y)
    decreases |a|
  {
    if a == [] {
      assert a + b == b && x + y == y;
    } else {
      assert (a + b)[1..] == a[1..] + b && (x + y)[1..] == x[1..] + y;
      AdmittedConcat(key, a[1..], x[1..], b, y);
    }
  }

  lemma {:induction false} AdmittedFlood(n: nat, t: int, verdicts: seq<bool>)
    requires |verdicts| == n && AllAdmitted(verdicts)
    ensures Admitted(K, Flood(n, t), verdicts) == n
  {
    if n > 0 {
      assert Flood(n, t)[1..] == Flood(n - 1, t);
      AdmittedFlood(n - 1, t, verdicts[1..]);
    }
  }

  lemma TwoBurstsAdmitted(c: Limits)
    ensures 2 * Capacity(c) <= Admitted(K, TwoBursts(c), Verdicts(c, map[], TwoBursts(c), true)) * c.window
  {
    var head, tail := TwoBurstsVerdicts(c, true);
    var n := c.burst;
    var first, second := Flood(n, c.window - 1), Flood(n, 3 * c.window);
    AdmittedConcat(K, first + Ticks(c), head, second, tail);
    AdmittedConcat(K, first, head[..n], Ticks(c), head[n..]);
    assert head[..n] + head[n..] == head;
    AdmittedFlood(n, c.window - 1, head[..n]);
    AdmittedFlood(n, 3 * c.window, tail);
    AtLeastTwice(c, Admitted(K, TwoBursts(c), head + tail));
  }

  lemma AtLeastTwice(c: Limits, n: int)
    requires c.burst + c.burst <= n
    ensures 2 * Capacity(c) <= n * c.window
  {
    assert (c.burst + c.burst) * c.window <= n * c.window;
  }

  lemma TwoBurstsExceedTheRate(c: Limits)
    requires !RefillsBeforeEviction(c)
    ensures !RateIsBounded(c, K, [], TwoBursts(c), c.window - 1, c.window - 1, 3 * c.window)
  {
    TwoBurstsOrdered(c);
    TwoBurstsAdmitted(c);
    assert 3 * c.window - (c.window - 1) == 2 * c.window + 1;
    assert After(c, map[], [], true) == map[];
    assert Ordered([], c.window - 1, c.window - 1);
  }

  /** The bound holds in every run under the same condition, and only then. */
  lemma RateBoundThreshold(c: Limits)
    ensures RefillsBeforeEviction(c) <==>
            forall key, before, during, start, from, to ::
              RateIsBounded(c, key, before, during, start, from, to)
  {
    if RefillsBeforeEviction(c) {
      forall key, before, during, start, from, to
        ensures RateIsBounded(c, key, before, during, start, from, to)
      {
        RateBound(c, key, before, during, start, from, to);
      }
    } else {
      TwoBurstsExceedTheRate(c);
    }
  }

  // ----- which requests exactly are admitted -----

  function StartOf(es: seq<Event>, i: nat, t: int): int
    requires i <= |es|
  {
    if i < |es| then es[i].at else t
  }

  /** What the interval that begins with event i, or just before t, still allows: the burst
      plus what it earns, less what it admitted. */
  function Slack(c: Limits, key: string, es: seq<Event>, verdicts: seq<bool>, t: int, i: nat): int
    requires |es| == |verdicts| && i <= |es|
  {
    Capacity(c) + Earned(c, t - StartOf(es, i, t)) - Admitted(key, es[i..], verdicts[i..]) * c.window
  }

  predicate SlackEverywhere(c: Limits, key: string, es: seq<Event>, verdicts: seq<bool>, t: int, q: int)
    requires |es| == |verdicts|
  {
    forall i :: 0 <= i <= |es| ==> q <= Slack(c, key, es, verdicts, t, i)
  }

  lemma EarnedNothing(c: Limits)
    ensures Earned(c, 0) == 0
  {
  }

  /** Between events a level rises with time, up to the capacity. */
  lemma CreditLater(c: Limits, v: Table, key: string, s: int, t: int, q: int)
    requires s <= t
    ensures q <= Credit(c, v, key, t) <==> q <= Capacity(c) && q - Earned(c, t - s) <= Credit(c, v, key, s)
  {
    EarnedMonotone(c, 0, t - s);
    EarnedNothing(c);
    if key in v {
      var last := v[key].bucket.last;
      EarnedAdds(c, s - last, t - s);
      assert (s - last) + (t - s) == t - last;
    }
  }

  function Spent(c: Limits, key: string, e: Event, ok: bool): int {
    if e == Request(key, e.at) && ok then c.window else 0
  }

  /** An event takes a token from its own key if it admits, and leaves all else as it was. */
  lemma CreditSpent(c: Limits, v: Table, key: string, e: Event)
    ensures var (v', ok) := Apply(c, v, e, false);
            && Credit(c, v', key, e.at) == Credit(c, v, key, e.at) - Spent(c, key, e, ok)
            && (e.Request? ==> (ok <==> c.window <= Credit(c, v, e.key, e.at)))
  {
    OneTokenFits(c);
    EarnedNothing(c);
  }

  lemma OneEvent(c: Limits, v: Table, e: Event, evict: bool)
    ensures After(c, v, [e], evict) == Apply(c, v, e, evict).0
    ensures Verdicts(c, v, [e], evict) == [Apply(c, v, e, evict).1]
  {
    assert [e][1..] == [];
  }

  lemma AdmittedOne(key: string, e: Event, ok: bool)
    ensures Admitted(key, [e], [ok]) == if e == Request(key, e.at) && ok then 1 else 0
  {
    assert [e][1..] == [] && [ok][1..] == [];
  }

  /** The last event lowers what every earlier interval allows by what it spends, and the
      time since raises it by what is earned. */
  lemma SlackSnoc(c: Limits, key: string, es: seq<Event>, x: seq<bool>, e: Event, ok: bool, t: int, i: nat)
    requires |es| == |x| && i <= |es|
    ensures Slack(c, key, es + [e], x + [ok], t, i)
         == Slack(c, key, es, x, e.at, i) + Earned(c, t - e.at) - Spent(c, key, e, ok)
  {
    var at := if i < |es| then es[i].at else e.at;
    assert (es + [e])[i].at == at;
    assert (es + [e])[i..] == es[i..] + [e] && (x + [ok])[i..] == x[i..] + [ok];
    AdmittedConcat(key, es[i..], x[i..], [e], [ok]);
    AdmittedOne(key, e, ok);
    EarnedAdds(c, e.at - at, t - e.at);
    assert (e.at - at) + (t - e.at) == t - at;
    assert (Admitted(key, es[i..], x[i..]) + 1) * c.window == Admitted(key, es[i..], x[i..]) * c.window + c.window;
  }

  lemma SlackAtTheEnd(c: Limits, key: string, es: seq<Event>, x: seq<bool>, t: int)
    requires |es| == |x|
    ensures Slack(c, key, es, x, t, |es|) == Capacity(c)
  {
    EarnedNothing(c);
  }

  lemma SlackEverywhereSnoc(c: Limits, key: string, es: seq<Event>, x: seq<bool>, e: Event, ok: bool, t: int, q: int)
    requires |es| == |x|
    ensures SlackEverywhere(c, key, es + [e], x + [ok], t, q) <==>
            q <= Capacity(c)
            && SlackEverywhere(c, key, es, x, e.at, q - Earned(c, t - e.at) + Spent(c, key, e, ok))
  {
    SlackAtTheEnd(c, key, es + [e], x + [ok], t);
    forall i | 0 <= i <= |es|
      ensures Slack(c, key, es + [e], x + [ok], t, i)
           == Slack(c, key, es, x, e.at, i) + Earned(c, t - e.at) - Spent(c, key, e, ok)
    {
      SlackSnoc(c, key, es, x, e, ok, t, i);
    }
  }

  lemma {:induction false} OrderedSnoc(es: seq<Event>, e: Event, start: int, stop: int)
    requires start <= stop
    ensures Ordered(es + [e], start, stop) <==> start <= e.at <= stop && Ordered(es, start, e.at)
    decreases |es|
  {
    if es == [] {
      assert ([] + [e])[1..] == [];
    } else {
      assert (es + [e])[1..] == es[1..] + [e];
      if start <= es[0].at <= stop {
        OrderedSnoc(es[1..], e, es[0].at, stop);
      }
    }
  }

  /** What a key may still spend is the least that any interval ending now allows. */
  lemma {:induction false} CreditIsLeastSlack(c: Limits, es: seq<Event>, key: string, start: int, t: int, q: int)
    requires start <= t && Ordered(es, start, t)
    ensures q <= Credit(c, After(c, map[], es, false), key, t)
            <==> SlackEverywhere(c, key, es, Verdicts(c, map[], es, false), t, q)
    decreases |es|
  {
    if es == [] {
      SlackAtTheEnd(c, key, [], [], t);
    } else {
      var n := |es| - 1;
      var front, e := es[..n], es[n];
      var v := After(c, map[], front, false);
      var ok := Apply(c, v, e, false).1;
      assert es == front + [e];
      OrderedSnoc(front, e, start, t);
      RunConcat(c, map[], front, [e], false);
      OneEvent(c, v, e, false);
      CreditSpent(c, v, key, e);
      CreditLater(c, Apply(c, v, e, false).0, key, e.at, t, q);
      CreditIsLeastSlack(c, front, key, start, e.at, q - Earned(c, t - e.at) + Spent(c, key, e, ok));
      SlackEverywhereSnoc(c, key, front, Verdicts(c, map[], front, false), e, ok, t, q);
    }
  }

  /** The verdict on a request, after a run from an empty table. */
  function Decision(c: Limits, es: seq<Event>, key: string, t: int, evict: bool): bool {
    Verdicts(c, map[], es + [Request(key, t)], evict)[|es|]
  }

  /** One request more at time t, in the interval that begins with event i, keeps to the
      burst plus what the interval earns. */
  predicate Fits(c: Limits, es: seq<Event>, verdicts: seq<bool>, key: string, t: int, i: nat)
    requires |es| == |verdicts| && i <= |es|
  {
    (Admitted(key, es[i..], verdicts[i..]) + 1) * c.window <= Capacity(c) + Earned(c, t - StartOf(es, i, t))
  }

  lemma FitsIff(c: Limits, es: seq<Event>, x: seq<bool>, key: string, t: int, i: nat)
    requires |es| == |x| && i <= |es|
    ensures Fits(c, es, x, key, t, i) <==> c.window <= Slack(c, key, es, x, t, i)
  {
    var n := Admitted(key, es[i..], x[i..]);
    assert (n + 1) * c.window == n * c.window + c.window;
  }

  predicate FitsAlways(c: Limits, es: seq<Event>, verdicts: seq<bool>, key: string, t: int)
    requires |es| == |verdicts|
  {
    forall i :: 0 <= i <= |es| ==> Fits(c, es, verdicts, key, t, i)
  }

  lemma DecisionIff(c: Limits, es: seq<Event>, key: string, start: int, t: int)
    requires start <= t && Ordered(es, start, t)
    ensures Decision(c, es, key, t, false) <==> FitsAlways(c, es, Verdicts(c, map[], es, false), key, t)
  {
    var e := Request(key, t);
    var x, v := Verdicts(c, map[], es, false), After(c, map[], es, false);
    RunConcat(c, map[], es, [e], false);
    OneEvent(c, v, e, false);
    CreditSpent(c, v, key, e);
    CreditIsLeastSlack(c, es, key, start, t, c.window);
    forall i | 0 <= i <= |es| ensures Fits(c, es, x, key, t, i) <==> c.window <= Slack(c, key, es, x, t, i) {
      FitsIff(c, es, x, key, t, i);
    }
  }

  /** In an ordered run a request is admitted if and only if, in every interval that ends
      with it, the key's admissions with this one cost at most the burst plus what the
      interval earns. This is so of the limiter that never forgets, and of the one that
      evicts if eviction does not show. */
  lemma AdmittedIff(c: Limits, es: seq<Event>, key: string, start: int, t: int, evict: bool)
    requires evict ==> RefillsBeforeEviction(c)
    requires start <= t && Ordered(es, start, t)
    ensures Decision(c, es, key, t, evict) <==> FitsAlways(c, es, Verdicts(c, map[], es, evict), key, t)
  {
    DecisionIff(c, es, key, start, t);
    if evict {
      OrderedSnoc(es, Request(key, t), start, t);
      EvictionNeverShows(c, es, start, t);
      EvictionNeverShows(c, es + [Request(key, t)], start, t);
    }
  }

  // ----- refusals cost nothing -----

  /** What is left of s without the marked places. */
  function Struck<T>(s: seq<T>, marks: seq<bool>): seq<T>
    requires |s| == |marks|
  {
    if s == [] then []
    else if marks[0] then Struck(s[1..], marks[1..])
    else [s[0]] + Struck(s[1..], marks[1..])
  }

  /** Only refused requests are marked. */
  predicate MarksRefusals(es: seq<Event>, verdicts: seq<bool>, marks: seq<bool>) {
    |es| == |verdicts| == |marks| && forall i :: 0 <= i < |es| && marks[i] ==> es[i].Request? && !verdicts[i]
  }

  /** The same keys with the same buckets. */
  predicate SameBuckets(v: Table, w: Table) {
    v.Keys == w.Keys && forall k :: k in v ==> v[k].bucket == w[k].bucket
  }

  lemma ApplySameBuckets(c: Limits, v: Table, w: Table, e: Event)
    requires SameBuckets(v, w)
    ensures Apply(c, v, e, false).1 == Apply(c, w, e, false).1
    ensures SameBuckets(Apply(c, v, e, false).0, Apply(c, w, e, false).0)
    ensures e.Request? && !Apply(c, v, e, false).1 ==> SameBuckets(Apply(c, v, e, false).0, w)
  {
    OneTokenFits(c);
    EarnedNothing(c);
  }

  lemma {:induction false} StrikingFrom(c: Limits, v: Table, w: Table, es: seq<Event>, marks: seq<bool>)
    requires SameBuckets(v, w) && MarksRefusals(es, Verdicts(c, v, es, false), marks)
    ensures Verdicts(c, w, Struck(es, marks), false) == Struck(Verdicts(c, v, es, false), marks)
    decreases |es|
  {
    if es != [] {
      var (v', ok) := Apply(c, v, es[0], false);
      ApplySameBuckets(c, v, w, es[0]);
      assert Verdicts(c, v, es, false) == [ok] + Verdicts(c, v', es[1..], false);
      assert forall i :: 0 <= i < |es[1..]| ==> marks[1..][i] == marks[i + 1];
      if marks[0] {
        StrikingFrom(c, v', w, es[1..], marks[1..]);
      } else {
        StrikingFrom(c, v', Apply(c, w, es[0], false).0, es[1..], marks[1..]);
        var rest := Struck(es[1..], marks[1..]);
        assert ([es[0]] + rest)[1..] == rest;
      }
    }
  }

  lemma {:induction false} StruckIsOrdered(es: seq<Event>, marks: seq<bool>, start: int, stop: int)
    requires |es| == |marks| && Ordered(es, start, stop)
    ensures Ordered(Struck(es, marks), start, stop)
    decreases |es|
  {
    if es != [] {
      StruckIsOrdered(es[1..], marks[1..], es[0].at, stop);
      var rest := Struck(es[1..], marks[1..]);
      assert ([es[0]] + rest)[1..] == rest;
      EarlierStart(rest, es[0].at, start, stop);
    }
  }

  lemma EarlierStart(es: seq<Event>, later: int, start: int, stop: int)
    requires start <= later && Ordered(es, later, stop)
    ensures Ordered(es, start, stop)
  {
  }

  /** Striking refused requests out of the run changes no other verdict. */
  ghost predicate RefusalsAreFree(c: Limits, es: seq<Event>, start: int, stop: int, evict: bool) {
    forall marks ::
      Ordered(es, start, stop) && MarksRefusals(es, Verdicts(c, map[], es, evict), marks) ==>
        Verdicts(c, map[], Struck(es, marks), evict) == Struck(Verdicts(c, map[], es, evict), marks)
  }

  lemma StrikingIsFree(c: Limits, es: seq<Event>, start: int, stop: int, evict: bool)
    requires evict ==> RefillsBeforeEviction(c)
    ensures RefusalsAreFree(c, es, start, stop, evict)
  {
    forall marks | Ordered(es, start, stop) && MarksRefusals(es, Verdicts(c, map[], es, evict), marks)
      ensures Verdicts(c, map[], Struck(es, marks), evict) == Struck(Verdicts(c, map[], es, evict), marks)
    {
      if evict {
        StruckIsOrdered(es, marks, start, stop);
        EvictionNeverShows(c, es, start, stop);
        EvictionNeverShows(c, Struck(es, marks), start, stop);
      }
      StrikingFrom(c, map[], map[], es, marks);
    }
  }

  /** Every key was last admitted when it was last seen. */
  predicate AllCurrent(v: Table, now: int) {
    forall k :: k in v ==> 0 <= v[k].bucket.level && v[k].bucket.last == v[k].lastSeen <= now
  }

  /** At a token a nanosecond and more, a request is refused only in the very nanosecond of
      the last admission. */
  lemma FastRefusalKeeps(c: Limits, v: Table, now: int, e: Event)
    requires c.window <= c.requests && AllCurrent(v, now) && now <= e.at
    ensures var (v', ok) := Apply(c, v, e, true);
            AllCurrent(v', e.at) && (e.Request? && !ok ==> v' == v)
  {
    OneTokenFits(c);
    EarnedNothing(c);
    if e.Request? && e.key in v {
      var since := e.at - v[e.key].bucket.last;
      EarnedMonotone(c, 0, since);
      if 0 < since {
        EarnedMonotone(c, 1, since);
      }
    }
  }

  lemma {:induction false} FastStriking(c: Limits, v: Table, now: int, stop: int, es: seq<Event>, marks: seq<bool>)
    requires c.window <= c.requests && AllCurrent(v, now) && Ordered(es, now, stop)
    requires MarksRefusals(es, Verdicts(c, v, es, true), marks)
    ensures Verdicts(c, v, Struck(es, marks), true) == Struck(Verdicts(c, v, es, true), marks)
    decreases |es|
  {
    if es != [] {
      var (v', ok) := Apply(c, v, es[0], true);
      FastRefusalKeeps(c, v, now, es[0]);
      assert Verdicts(c, v, es, true) == [ok] + Verdicts(c, v', es[1..], true);
      assert forall i :: 0 <= i < |es[1..]| ==> marks[1..][i] == marks[i + 1];
      FastStriking(c, v', es[0].at, stop, es[1..], marks[1..]);
      var rest := Struck(es[1..], marks[1..]);
      assert ([es[0]] + rest)[1..] == rest;
    }
  }

  /** The two bursts, and between the first and the ticks one request more, refused. */
  function RefusalBetween(c: Limits): seq<Event> {
    Flood(c.burst, c.window - 1) + [Request(K, c.window)] + Ticks(c) + Flood(c.burst, 3 * c.window)
  }

  function Unmarked(n: nat): (r: seq<bool>)
    ensures |r| == n && forall i :: 0 <= i < n ==> !r[i]
  {
    seq(n, _ => false)
  }

  lemma {:induction false} StruckConcat<T>(a: seq<T>, x: seq<bool>, b: seq<T>, y: seq<bool>)
    requires |a| == |x| && |b| == |y|
    ensures Struck(a + b, x + y) == Struck(a, x) + Struck(b, y)
    decreases |a|
  {
    if a == [] {
      assert a + b == b && x + y == y;
    } else {
      assert (a + b)[1..] == a[1..] + b && (x + y)[1..] == x[1..] + y;
      StruckConcat(a[1..], x[1..], b, y);
    }
  }

  lemma {:induction false} NothingStruck<T>(a: seq<T>, x: seq<bool>)
    requires |a| == |x| && forall i :: 0 <= i < |x| ==> !x[i]
    ensures Struck(a, x) == a
    decreases |a|
  {
    if a != [] {
      assert forall i :: 0 <= i < |x[1..]| ==> x[1..][i] == x[i + 1];
      NothingStruck(a[1..], x[1..]);
    }
  }

  lemma StruckAlone<T>(one: T)
    ensures Struck([one], [true]) == []
  {
    assert Struck([one], [true]) == Struck([one][1..], [true][1..]);
  }

  /** Only one place is marked. */
  lemma StrikeOne<T>(a: seq<T>, x: seq<bool>, one: T, b: seq<T>, y: seq<bool>)
    requires |a| == |x| && |b| == |y|
    requires (forall i :: 0 <= i < |x| ==> !x[i]) && (forall i :: 0 <= i < |y| ==> !y[i])
    ensures Struck(a + [one] + b, x + [true] + y) == a + b
  {
    StruckConcat(a + [one], x + [true], b, y);
    StruckConcat(a, x, [one], [true]);
    StruckAlone(one);
    NothingStruck(a, x);
    NothingStruck(b, y);
    assert a + [] == a;
  }

  lemma RefusalBetweenOrdered(c: Limits)
    ensures Ordered(RefusalBetween(c), c.window - 1, 3 * c.window)
  {
    var w := c.window;
    FloodOrdered(c.burst, w - 1, w - 1);
    FloodOrdered(c.burst, 3 * w, 3 * w);
    var first, second := Flood(c.burst, w - 1), Flood(c.burst, 3 * w);
    assert [Request(K, w)][1..] == [];
    assert Ordered([Request(K, w)], w - 1, w);
    assert Ticks(c)[1..] == [Tick(2 * w), Tick(3 * w)] && Ticks(c)[1..][1..] == [Tick(3 * w)];
    assert Ordered([Tick(3 * w)], 2 * w, 3 * w);
    assert Ordered([Tick(2 * w), Tick(3 * w)], w, 3 * w);
    assert Ordered(Ticks(c), w, 3 * w);
    OrderedConcat(first, [Request(K, w)], w - 1, w - 1, w);
    OrderedConcat(first + [Request(K, w)], Ticks(c), w - 1, w, 3 * w);
    OrderedConcat(first + [Request(K, w)] + Ticks(c), second, w - 1, 3 * w, 3 * w);
  }

  /** The refused request keeps its key from eviction. */
  lemma TicksKeep(c: Limits, v: Table)
    requires v == map[K := Visitor(Bucket(0, c.window - 1), c.window)]
    ensures After(c, v, Ticks(c), true) == v && Verdicts(c, v, Ticks(c), true) == [false, false, false]
  {
    var e1, e2, e3 := Ticks(c)[0], Ticks(c)[1], Ticks(c)[2];
    assert Ticks(c)[1..] == [e2, e3] && [e2, e3][1..] == [e3];
    assert Cleanup(c, v, c.window) == v && Cleanup(c, v, 2 * c.window) == v && Cleanup(c, v, 3 * c.window) == v;
    OneEvent(c, v, e3, true);
    assert After(c, v, [e2, e3], true) == After(c, v, [e3], true);
    assert Verdicts(c, v, [e2, e3], true) == [false] + Verdicts(c, v, [e3], true);
  }

  lemma BetweenIsRefused(c: Limits)
    requires c.requests < c.window
    ensures var t := c.window - 1;
            Apply(c, map[K := Visitor(Bucket(0, t), t)], Request(K, c.window), true)
            == (map[K := Visitor(Bucket(0, t), c.window)], false)
  {
    OneTokenFits(c);
    var b := Bucket(0, c.window - 1);
    var v := map[K := Visitor(b, c.window - 1)];
    assert LevelAt(c, b, c.window) == Earned(c, 1) == c.requests;
    assert v[K := Visitor(b, c.window)] == map[K := Visitor(b, c.window)];
  }

  lemma FirstBurst(c: Limits, t: int)
    ensures After(c, map[], Flood(c.burst, t), true) == map[K := Visitor(Bucket(0, t), t)]
  {
    assert LevelAt(c, Bucket(Capacity(c), t), t) == Capacity(c);
    FloodAdmitted(c, map[], c.burst, t, true);
  }

  lemma SecondBurstRefused(c: Limits)
    requires !RefillsBeforeEviction(c)
    ensures !AllAdmitted(Verdicts(c, map[K := Visitor(Bucket(0, c.window - 1), c.window)],
                                  Flood(c.burst, 3 * c.window), true))
  {
    var v := map[K := Visitor(Bucket(0, c.window - 1), c.window)];
    assert LevelAt(c, BucketOf(c, v, K, 3 * c.window), 3 * c.window) <= Earned(c, 2 * c.window + 1);
    FloodRefused(c, v, c.burst, 3 * c.window, true);
  }

  /** The request between is refused, and the second burst is no longer admitted whole. */
  lemma RefusalBetweenVerdicts(c: Limits) returns (a: seq<bool>, b: seq<bool>, tail: seq<bool>)
    requires !RefillsBeforeEviction(c) && c.requests < c.window
    ensures |a| == c.burst && |b| == 3 && |tail| == c.burst
    ensures Verdicts(c, map[], RefusalBetween(c), true) == a + [false] + b + tail
    ensures !AllAdmitted(tail)
  {
    var t := c.window - 1;
    var first, second, between := Flood(c.burst, t), Flood(c.burst, 3 * c.window), Request(K, c.window);
    var kept := map[K := Visitor(Bucket(0, t), c.window)];
    FirstBurst(c, t);
    BetweenIsRefused(c);
    OneEvent(c, After(c, map[], first, true), between, true);
    TicksKeep(c, kept);
    RunConcat(c, map[], first, [between], true);
    RunConcat(c, map[], first + [between], Ticks(c), true);
    RunConcat(c, map[], first + [between] + Ticks(c), second, true);
    a, b, tail := Verdicts(c, map[], first, true), [false, false, false], Verdicts(c, kept, second, true);
    SecondBurstRefused(c);
  }

  lemma RefusalCosts(c: Limits)
    requires !RefillsBeforeEviction(c) && c.requests < c.window
    ensures !RefusalsAreFree(c, RefusalBetween(c), c.window - 1, 3 * c.window, true)
  {
    var es, n := RefusalBetween(c), c.burst;
    var first, last := Flood(n, c.window - 1), Ticks(c) + Flood(n, 3 * c.window);
    var a, b, tail := RefusalBetweenVerdicts(c);
    var head', tail' := TwoBurstsVerdicts(c, true);
    var marks := Unmarked(n) + [true] + Unmarked(n + 3);
    RefusalBetweenOrdered(c);
    assert es == first + [Request(K, c.window)] + last && TwoBursts(c) == first + last;
    assert Verdicts(c, map[], es, true) == a + [false] + (b + tail);
    StrikeOne(first, Unmarked(n), Request(K, c.window), last, Unmarked(n + 3));
    StrikeOne(a, Unmarked(n), false, b + tail, Unmarked(n + 3));
    assert MarksRefusals(es, Verdicts(c, map[], es, true), marks);
    assert (head' + tail')[n + 3..] == tail' && (a + (b + tail))[n + 3..] == tail;
  }

  /** In the limiter that evicts, refused requests cost nothing in any run exactly when
      eviction does not show, or tokens come at least one a nanosecond. */
  lemma RefusalsCostNothingIff(c: Limits)
    ensures RefillsBeforeEviction(c) || c.window <= c.requests
            <==> forall es, start, stop :: RefusalsAreFree(c, es, start, stop, true)
  {
    if RefillsBeforeEviction(c) {
      forall es, start, stop ensures RefusalsAreFree(c, es, start, stop, true) {
        StrikingIsFree(c, es, start, stop, true);
      }
    } else if c.window <= c.requests {
      forall es, start, stop ensures RefusalsAreFree(c, es, start, stop, true) {
        forall marks | Ordered(es, start, stop) && MarksRefusals(es, Verdicts(c, map[], es, true), marks)
          ensures Verdicts(c, map[], Struck(es, marks), true) == Struck(Verdicts(c, map[], es, true), marks)
        {
          FastStriking(c, map[], start, stop, es, marks);
        }
      }
    } else {
      RefusalCosts(c);
    }
  }
}
