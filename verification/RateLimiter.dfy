/**
 The fixed-window limiter on public authentication routes. Each attempt is charged to one bucket per
 key (route and client address, route and subject), and is refused when any of its buckets is full.

 Times are nanoseconds since Go's zero time, so 0 is the unset time.
 */
module RateLimiter {
  datatype Bucket = Bucket(count: nat, resetAt: nat, lastSeen: nat)

  type Buckets = map<string, Bucket>

  const MINUTE: nat := 60_000_000_000
  const DEFAULT_LIMIT: nat := 20

  datatype Config = Config(enabled: bool, limit: int, window: int)

  /** The limiter's parameters after defaults are applied. */
  datatype Limits = Limits(limit: nat, window: nat)

  ghost predicate Sensible(l: Limits) {
    l.limit > 0 && l.window > 0
  }

  /** A missing key reads as the zero bucket. */
  function Lookup(b: Buckets, key: string): Bucket {
    if key in b then b[key] else Bucket(0, 0, 0)
  }

  predicate Expired(bucket: Bucket, now: nat) {
    bucket.resetAt == 0 || bucket.resetAt <= now
  }

  predicate Full(l: Limits, b: Buckets, key: string, now: nat) {
    !Expired(Lookup(b, key), now) && Lookup(b, key).count >= l.limit
  }

  // ---------------------------------------------------------------------------------------------
  // One attempt, as a function of the buckets

  function Prune(b: Buckets, now: nat): Buckets {
    map key | key in b && b[key].resetAt >= now :: b[key]
  }

  function Charged(l: Limits, bucket: Bucket, now: nat): Bucket {
    if Expired(bucket, now) then Bucket(1, now + l.window, now)
    else Bucket(bucket.count + 1, bucket.resetAt, now)
  }

  function ChargeAll(l: Limits, b: Buckets, keys: seq<string>, now: nat): Buckets {
    if keys == [] then b
    else
      var init, last := keys[..|keys| - 1], keys[|keys| - 1];
      var b' := ChargeAll(l, b, init, now);
      b'[last := Charged(l, Lookup(b', last), now)]
  }

  /** The first full key refuses the attempt and is marked as seen. */
  function Touch(l: Limits, b: Buckets, keys: seq<string>, now: nat): Buckets {
    if keys == [] then b
    else if Full(l, b, keys[0], now) then b[keys[0] := Lookup(b, keys[0]).(lastSeen := now)]
    else Touch(l, b, keys[1..], now)
  }

  datatype Attempt = Attempt(now: nat, keys: seq<string>)

  predicate Admitted(l: Limits, b: Buckets, a: Attempt) {
    forall key :: key in a.keys ==> !Full(l, b, key, a.now)
  }

  /** The buckets after an attempt, with or without the pruning that precedes it. */
  function Step(l: Limits, b: Buckets, a: Attempt, pruning: bool): Buckets {
    var start := if pruning then Prune(b, a.now) else b;
    if Admitted(l, start, a) then ChargeAll(l, start, a.keys, a.now) else Touch(l, start, a.keys, a.now)
  }

  function Decision(l: Limits, b: Buckets, a: Attempt, pruning: bool): bool {
    Admitted(l, if pruning then Prune(b, a.now) else b, a)
  }

  // ---------------------------------------------------------------------------------------------
  // The limiter

  /** Limiter keys. `subjectHash` is empty when the request names no subject. */
  function AuthRateKeys(route: string, clientIP: string, subjectHash: string): (keys: seq<string>)
    ensures forall i, j :: 0 <= i < j < |keys| ==> keys[i] != keys[j]
    ensures |keys| == if subjectHash == "" then 1 else 2
  {
    var ip, subject := AuthRateKey(route, "ip", clientIP), AuthRateKey(route, "subject", subjectHash);
    assert ip[|route| + 1] == 'i' && subject[|route| + 1] == 's';
    if subjectHash == "" then [ip] else [ip, subject]
  }

  function AuthRateKey(route: string, dimension: string, value: string): string {
    route + "\0" + dimension + "\0" + value
  }

  lemma SameRoute(route: string, rest: string, route': string, rest': string)
    requires '\0' !in route && '\0' !in route' && route + ['\0'] + rest == route' + ['\0'] + rest'
    ensures route == route' && rest == rest'
  {
    var key, key' := route + ['\0'] + rest, route' + ['\0'] + rest';
    assert key[|route|] == '\0' && key'[|route'|] == '\0';
    assert route == key[..|route|] && route' == key'[..|route'|];
    assert rest == key[|route| + 1..] && rest' == key'[|route'| + 1..];
  }

  lemma RateKeyIff(route: string, dimension: string, value: string, route': string, dimension': string, value': string)
    requires '\0' !in route && '\0' !in route' && '\0' !in dimension && '\0' !in dimension'
    ensures AuthRateKey(route, dimension, value) == AuthRateKey(route', dimension', value') <==>
              route == route' && dimension == dimension' && value == value'
  {
    var rest, rest' := dimension + ['\0'] + value, dimension' + ['\0'] + value';
    assert AuthRateKey(route, dimension, value) == route + ['\0'] + rest;
    assert AuthRateKey(route', dimension', value') == route' + ['\0'] + rest';
    if AuthRateKey(route, dimension, value) == AuthRateKey(route', dimension', value') {
      SameRoute(route, rest, route', rest');
      SameRoute(dimension, value, dimension', value');
    }
  }

  /**
   Attempts share a bucket exactly when they share the route and the address, or the route and the subject.
   Routes hold no NUL.
   */
  lemma RateKeysMeetIff(route: string, clientIP: string, subjectHash: string,
                        route': string, clientIP': string, subjectHash': string)
    requires '\0' !in route && '\0' !in route'
    ensures (exists key :: key in AuthRateKeys(route, clientIP, subjectHash)
                           && key in AuthRateKeys(route', clientIP', subjectHash')) <==>
              route == route' && (clientIP == clientIP' || (subjectHash == subjectHash' && subjectHash != ""))
  {
    var keys, keys' := AuthRateKeys(route, clientIP, subjectHash), AuthRateKeys(route', clientIP', subjectHash');
    var ip, ip' := AuthRateKey(route, "ip", clientIP), AuthRateKey(route', "ip", clientIP');
    var subject, subject' := AuthRateKey(route, "subject", subjectHash), AuthRateKey(route', "subject", subjectHash');
    RateKeyIff(route, "ip", clientIP, route', "ip", clientIP');
    RateKeyIff(route, "ip", clientIP, route', "subject", subjectHash');
    RateKeyIff(route, "subject", subjectHash, route', "ip", clientIP');
    RateKeyIff(route, "subject", subjectHash, route', "subject", subjectHash');
    assert "ip"[0] != "subject"[0];
    assert forall key :: key in keys <==> key == ip || (subjectHash != "" && key == subject);
    assert forall key :: key in keys' <==> key == ip' || (subjectHash' != "" && key == subject');
    if ip == ip' { assert ip in keys && ip in keys'; }
    if subject == subject' && subjectHash != "" { assert subject in keys && subject in keys'; }
  }

  class AuthRateLimiter {
    const enabled: bool
    const limits: Limits
    var buckets: Buckets

    constructor (cfg: Config)
      ensures enabled == cfg.enabled && Sensible(limits) && buckets == map[]
      ensures cfg.limit > 0 ==> limits.limit == cfg.limit
      ensures cfg.limit <= 0 ==> limits.limit == DEFAULT_LIMIT
      ensures cfg.window > 0 ==> limits.window == cfg.window
      ensures cfg.window <= 0 ==> limits.window == MINUTE
    {
      enabled := cfg.enabled;
      limits := Limits(if cfg.limit <= 0 then DEFAULT_LIMIT else cfg.limit,
                       if cfg.window <= 0 then MINUTE else cfg.window);
      buckets := map[];
    }

    method Allow(now: nat, route: string, clientIP: string, subjectHash: string) returns (ok: bool)
      modifies this
      ensures !enabled ==> ok && buckets == old(buckets)
      ensures enabled ==>
                var a := Attempt(now, AuthRateKeys(route, clientIP, subjectHash));
                ok == Decision(limits, old(buckets), a, true) && buckets == Step(limits, old(buckets), a, true)
    {
      if !enabled {
        return true;
      }
      var keys := AuthRateKeys(route, clientIP, subjectHash);
      PruneLocked(now);
      ghost var start := buckets;
      for i := 0 to |keys|
        invariant buckets == start
        invariant forall j :: 0 <= j < i ==> !Full(limits, start, keys[j], now)
        invariant Touch(limits, start, keys, now) == Touch(limits, start, keys[i..], now)
      {
        var bucket := Lookup(buckets, keys[i]);
        if bucket.resetAt == 0 || bucket.resetAt <= now {
          continue;
        }
        if bucket.count >= limits.limit {
          buckets := buckets[keys[i] := bucket.(lastSeen := now)];
          return false;
        }
      }
      Charge(keys, now);
      return true;
    }

    /** Every key's bucket is opened anew or counts one more. */
    method Charge(keys: seq<string>, now: nat)
      modifies this`buckets
      ensures buckets == ChargeAll(limits, old(buckets), keys, now)
    {
      for i := 0 to |keys|
        invariant buckets == ChargeAll(limits, old(buckets), keys[..i], now)
      {
        assert keys[..i + 1][..i] == keys[..i];
        var bucket := Lookup(buckets, keys[i]);
        if bucket.resetAt == 0 || bucket.resetAt <= now {
          buckets := buckets[keys[i] := Bucket(1, now + limits.window, now)];
          continue;
        }
        buckets := buckets[keys[i] := Bucket(bucket.count + 1, bucket.resetAt, now)];
      }
      assert keys[..|keys|] == keys;
    }

    method PruneLocked(now: nat)
      modifies this
      ensures buckets == Prune(old(buckets), now)
    {
      var pending := buckets.Keys;
      while pending != {}
        invariant pending <= buckets.Keys <= old(buckets).Keys
        invariant forall key :: key in buckets ==> buckets[key] == old(buckets)[key]
        invariant forall key :: key in old(buckets) && key !in pending ==>
                    (key in buckets <==> old(buckets)[key].resetAt >= now)
        decreases |pending|
      {
        var key :| key in pending;
        pending := pending - {key};
        if buckets[key].resetAt < now {
          buckets := buckets - {key};
        }
      }
    }
  }

  // ---------------------------------------------------------------------------------------------
  // Runs

  /** What happened to one attempt. */
  datatype Outcome = Outcome(now: nat, keys: seq<string>, allowed: bool)

  /** Attempts in clock order, each charging distinct keys. */
  ghost predicate Timed(run: seq<Attempt>) {
    && (forall i, j :: 0 <= i < j < |run| ==> run[i].now <= run[j].now)
    && (forall i :: 0 <= i < |run| ==> forall m, n :: 0 <= m < n < |run[i].keys| ==> run[i].keys[m] != run[i].keys[n])
  }

  function After(l: Limits, run: seq<Attempt>, pruning: bool): Buckets {
    if run == [] then map[]
    else Step(l, After(l, run[..|run| - 1], pruning), run[|run| - 1], pruning)
  }

  function History(l: Limits, run: seq<Attempt>, pruning: bool): seq<Outcome> {
    if run == [] then []
    else
      var init, a := run[..|run| - 1], run[|run| - 1];
      History(l, init, pruning) + [Outcome(a.now, a.keys, Decision(l, After(l, init, pruning), a, pruning))]
  }

  /** How often `key` was charged at times in the half-open interval [from, to). */
  function Count(h: seq<Outcome>, key: string, from: int, to: int): nat {
    if h == [] then 0
    else
      var o := h[|h| - 1];
      Count(h[..|h| - 1], key, from, to) + (if o.allowed && key in o.keys && from <= o.now < to then 1 else 0)
  }

  /** How often `key` was charged at `from` or later. */
  function Since(h: seq<Outcome>, key: string, from: int): nat {
    if h == [] then 0
    else
      var o := h[|h| - 1];
      Since(h[..|h| - 1], key, from) + (if o.allowed && key in o.keys && from <= o.now then 1 else 0)
  }

  ghost predicate TimesUpTo(h: seq<Outcome>, t: int) {
    forall i :: 0 <= i < |h| ==> h[i].now <= t
  }

  lemma {:induction false} SinceSplits(h: seq<Outcome>, key: string, from: int, to: int)
    requires from <= to
    ensures Since(h, key, from) == Count(h, key, from, to) + Since(h, key, to)
  {
    if h != [] { SinceSplits(h[..|h| - 1], key, from, to); }
  }

  lemma {:induction false} SinceAfterEnd(h: seq<Outcome>, key: string, t: int, from: int)
    requires TimesUpTo(h, t) && t < from
    ensures Since(h, key, from) == 0
  {
    if h != [] { SinceAfterEnd(h[..|h| - 1], key, t, from); }
  }

  lemma HistoryTimes(l: Limits, run: seq<Attempt>, pruning: bool)
    requires Timed(run)
    ensures |History(l, run, pruning)| == |run|
    ensures forall i :: 0 <= i < |run| ==> History(l, run, pruning)[i].now == run[i].now
  {
    if run != [] { HistoryTimes(l, run[..|run| - 1], pruning); }
  }

  lemma TimedPrefix(run: seq<Attempt>, n: nat)
    requires Timed(run) && n <= |run|
    ensures Timed(run[..n])
  {}

  lemma {:induction false} ChargeAllAt(l: Limits, b: Buckets, keys: seq<string>, now: nat, key: string)
    requires forall m, n :: 0 <= m < n < |keys| ==> keys[m] != keys[n]
    ensures key !in keys ==> (key in ChargeAll(l, b, keys, now) <==> key in b)
    ensures key in keys ==> key in ChargeAll(l, b, keys, now)
    ensures Lookup(ChargeAll(l, b, keys, now), key) ==
              if key in keys then Charged(l, Lookup(b, key), now) else Lookup(b, key)
  {
    if keys != [] {
      var init, last := keys[..|keys| - 1], keys[|keys| - 1];
      ChargeAllAt(l, b, init, now, key);
      assert key in keys <==> key in init || key == last;
    }
  }

  /** A refusal changes no count and no reset time, and adds or drops no bucket. */
  lemma {:induction false} RefusalKeepsCounts(l: Limits, b: Buckets, keys: seq<string>, now: nat, key: string)
    ensures key in Touch(l, b, keys, now) <==> key in b
    ensures Lookup(Touch(l, b, keys, now), key).count == Lookup(b, key).count
    ensures Lookup(Touch(l, b, keys, now), key).resetAt == Lookup(b, key).resetAt
  {
    if keys != [] { RefusalKeepsCounts(l, b, keys[1..], now, key); }
  }

  // ---------------------------------------------------------------------------------------------
  // Pruning is invisible

  /** The pruned buckets are the unpruned ones without some that have expired for good. */
  ghost predicate Refines(pruned: Buckets, full: Buckets, now: int) {
    && (forall key :: key in pruned ==> key in full && pruned[key] == full[key])
    && (forall key :: key in full && key !in pruned ==> full[key].resetAt < now)
  }

  lemma StepRefines(l: Limits, pruned: Buckets, full: Buckets, a: Attempt, before: int)
    requires Refines(pruned, full, before) && before <= a.now
    requires forall m, n :: 0 <= m < n < |a.keys| ==> a.keys[m] != a.keys[n]
    ensures Decision(l, pruned, a, true) == Decision(l, full, a, false)
    ensures Refines(Step(l, pruned, a, true), Step(l, full, a, false), a.now)
  {
    var start := Prune(pruned, a.now);
    assert forall key :: key in start ==> Full(l, start, key, a.now) == Full(l, full, key, a.now);
    assert forall key :: key !in start ==> Expired(Lookup(full, key), a.now);
    forall key ensures Full(l, start, key, a.now) == Full(l, full, key, a.now) {}
    if Admitted(l, start, a) {
      forall key ensures
          var p, f := ChargeAll(l, start, a.keys, a.now), ChargeAll(l, full, a.keys, a.now);
          && (key in p ==> key in f && p[key] == f[key])
          && (key in f && key !in p ==> f[key].resetAt < a.now)
      {
        ChargeAllAt(l, start, a.keys, a.now, key);
        ChargeAllAt(l, full, a.keys, a.now, key);
      }
    } else {
      TouchRefines(l, start, full, a.keys, a.now);
    }
  }

  lemma {:induction false} TouchRefines(l: Limits, pruned: Buckets, full: Buckets, keys: seq<string>, now: nat)
    requires Refines(pruned, full, now)
    requires forall key :: Full(l, pruned, key, now) == Full(l, full, key, now)
    ensures Refines(Touch(l, pruned, keys, now), Touch(l, full, keys, now), now)
  {
    if keys != [] && !Full(l, full, keys[0], now) {
      TouchRefines(l, pruned, full, keys[1..], now);
    }
  }

  /** Every run is decided alike by the limiter and by one that never forgets a bucket. */
  lemma {:induction false} PruningIsInvisible(l: Limits, run: seq<Attempt>)
    requires Timed(run)
    ensures History(l, run, true) == History(l, run, false)
    ensures Refines(After(l, run, true), After(l, run, false), if run == [] then 0 else run[|run| - 1].now)
  {
    if run != [] {
      var init := run[..|run| - 1];
      PruningIsInvisible(l, init);
      StepRefines(l, After(l, init, true), After(l, init, false), run[|run| - 1],
                  if init == [] then 0 else init[|init| - 1].now);
    }
  }

  // ---------------------------------------------------------------------------------------------
  // The bounds

  /**
   How a bucket reads the history up to time `t`: its count is the number of charges since it opened,
   never above the limit. The charge that opened it is one of them, so fewer came later, and fewer than
   `limit` charges lie less than a window before it.
   */
  ghost predicate Tracks(l: Limits, h: seq<Outcome>, b: Buckets, key: string, t: int) {
    if key !in b then Since(h, key, 0) == 0
    else
      var start := b[key].resetAt - l.window;
      && 0 <= start <= t
      && 1 <= b[key].count <= l.limit
      && Since(h, key, start) == b[key].count
      && Since(h, key, start + 1) < b[key].count
      && Since(h, key, b[key].resetAt) == 0
      && forall u :: start - l.window < u < start ==> Count(h, key, u, start) < l.limit
  }

  lemma StepTracks(l: Limits, h: seq<Outcome>, b: Buckets, a: Attempt, key: string, t: int)
    requires Sensible(l) && TimesUpTo(h, t) && t <= a.now && Tracks(l, h, b, key, t)
    requires forall m, n :: 0 <= m < n < |a.keys| ==> a.keys[m] != a.keys[n]
    ensures Tracks(l, h + [Outcome(a.now, a.keys, Decision(l, b, a, false))], Step(l, b, a, false), key, a.now)
  {
    if !Decision(l, b, a, false) {
      RefusalTracks(l, h, b, a, key, t);
    } else {
      ChargeTracks(l, h, b, a, key, t);
    }
  }

  lemma RefusalTracks(l: Limits, h: seq<Outcome>, b: Buckets, a: Attempt, key: string, t: int)
    requires TimesUpTo(h, t) && t <= a.now && Tracks(l, h, b, key, t)
    ensures Tracks(l, h + [Outcome(a.now, a.keys, false)], Touch(l, b, a.keys, a.now), key, a.now)
  {
    assert (h + [Outcome(a.now, a.keys, false)])[..|h|] == h;
    RefusalKeepsCounts(l, b, a.keys, a.now, key);
  }

  lemma ChargeTracks(l: Limits, h: seq<Outcome>, b: Buckets, a: Attempt, key: string, t: int)
    requires Sensible(l) && TimesUpTo(h, t) && t <= a.now && Tracks(l, h, b, key, t) && Admitted(l, b, a)
    requires forall m, n :: 0 <= m < n < |a.keys| ==> a.keys[m] != a.keys[n]
    ensures Tracks(l, h + [Outcome(a.now, a.keys, true)], ChargeAll(l, b, a.keys, a.now), key, a.now)
  {
    assert (h + [Outcome(a.now, a.keys, true)])[..|h|] == h;
    ChargeAllAt(l, b, a.keys, a.now, key);
    if key in a.keys && Expired(Lookup(b, key), a.now) {
      FreshBucketTracks(l, h, b, a, key, t);
    }
  }

  /** What a bucket that opens at `a.now` knows about the charges before it. */
  lemma FreshBucketTracks(l: Limits, h: seq<Outcome>, b: Buckets, a: Attempt, key: string, t: int)
    requires Sensible(l) && TimesUpTo(h, t) && t <= a.now && Tracks(l, h, b, key, t)
    requires Expired(Lookup(b, key), a.now)
    ensures Since(h, key, a.now) == 0 && Since(h, key, a.now + 1) == 0 && Since(h, key, a.now + l.window) == 0
    ensures forall u :: a.now - l.window < u < a.now ==> Count(h, key, u, a.now) < l.limit
  {
    SinceAfterEnd(h, key, t, a.now + 1);
    SinceAfterEnd(h, key, t, a.now + l.window);
    forall u | a.now - l.window < u <= a.now ensures Since(h, key, u) < l.limit {
      var from := if key in b then b[key].resetAt - l.window + 1 else 0;
      if from <= u { SinceSplits(h, key, from, u); }
      if key !in b && u < 0 { SinceSplits(h, key, u, 0); NothingBeforeZero(h, key, u); }
    }
    forall u | a.now - l.window < u < a.now ensures Count(h, key, u, a.now) < l.limit {
      SinceSplits(h, key, u, a.now);
    }
    SinceSplits(h, key, if key in b then b[key].resetAt else 0, a.now);
  }

  lemma {:induction false} NothingBeforeZero(h: seq<Outcome>, key: string, u: int)
    ensures Count(h, key, u, 0) == 0
  {
    if h != [] { NothingBeforeZero(h[..|h| - 1], key, u); }
  }

  lemma {:induction false} RunTracks(l: Limits, run: seq<Attempt>, key: string)
    requires Sensible(l) && Timed(run)
    ensures Tracks(l, History(l, run, false), After(l, run, false), key, if run == [] then 0 else run[|run| - 1].now)
  {
    if run != [] {
      var init := run[..|run| - 1];
      RunTracks(l, init, key);
      HistoryTimes(l, init, false);
      StepTracks(l, History(l, init, false), After(l, init, false), run[|run| - 1], key,
                 if init == [] then 0 else init[|init| - 1].now);
    }
  }

  /** What a tracked bucket says about a window that reaches past the end of the history. */
  lemma LastWindowHolds(l: Limits, h: seq<Outcome>, b: Buckets, key: string, t: int, now: int)
    requires Sensible(l) && TimesUpTo(h, now) && now < t + l.window && Tracks(l, h, b, key, now)
    ensures Count(h, key, t, t + l.window) <= 2 * l.limit - 1
  {
    SinceSplits(h, key, t, t + l.window);
    if key !in b {
      if t < 0 { SinceSplits(h, key, t, 0); NothingBeforeZero(h, key, t); } else { SinceSplits(h, key, 0, t); }
    } else {
      var start := b[key].resetAt - l.window;
      if start <= t { SinceSplits(h, key, start, t); } else { SinceSplits(h, key, t, start); }
    }
  }

  /**
   The rate bound: over every run, no key is allowed more than twice the limit, less one, in any
   half-open interval one window long.
   */
  lemma {:induction false} AtMostTwiceTheLimit(l: Limits, run: seq<Attempt>, key: string, t: int)
    requires Sensible(l) && Timed(run)
    ensures Count(History(l, run, true), key, t, t + l.window) <= 2 * l.limit - 1
  {
    PruningIsInvisible(l, run);
    if run != [] {
      var init, now := run[..|run| - 1], run[|run| - 1].now;
      if now >= t + l.window {
        AtMostTwiceTheLimit(l, init, key, t);
      } else {
        RunTracks(l, run, key);
        HistoryTimes(l, run, false);
        LastWindowHolds(l, History(l, run, false), After(l, run, false), key, t, now);
      }
    }
  }

  // A run that attains the bound

  function Repeated(run: seq<Attempt>, a: Attempt, n: nat): seq<Attempt> {
    if n == 0 then run else Repeated(run, a, n - 1) + [a]
  }

  /** One attempt opens a window, and the rest of its limit comes at its last moment. */
  function LateBurst(l: Limits, key: string): seq<Attempt>
    requires Sensible(l)
  {
    Repeated([Attempt(0, [key])], Attempt(l.window - 1, [key]), l.limit - 1)
  }

  /** The next window's limit comes just after. */
  function Burst(l: Limits, key: string): seq<Attempt>
    requires Sensible(l)
  {
    Repeated(LateBurst(l, key), Attempt(l.window, [key]), l.limit)
  }

  lemma LaterIsTimed(run: seq<Attempt>, key: string, now: nat)
    requires Timed(run) && (run == [] || run[|run| - 1].now <= now)
    ensures Timed(run + [Attempt(now, [key])])
  {
    var all := run + [Attempt(now, [key])];
    forall i, j | 0 <= i < j < |all| ensures all[i].now <= all[j].now {
      assert run != [] && run[i].now <= run[|run| - 1].now;
    }
  }

  lemma {:induction false} RepeatedIsTimed(run: seq<Attempt>, key: string, now: nat, n: nat)
    requires Timed(run) && (run == [] || run[|run| - 1].now <= now)
    ensures var all := Repeated(run, Attempt(now, [key]), n);
            Timed(all) && (all == [] || all[|all| - 1].now <= now)
  {
    if n > 0 {
      RepeatedIsTimed(run, key, now, n - 1);
      LaterIsTimed(Repeated(run, Attempt(now, [key]), n - 1), key, now);
    }
  }

  /** The bucket's count and reset time, and the charges in the window that starts at the first one's last tick. */
  ghost predicate Reads(l: Limits, run: seq<Attempt>, key: string, count: nat, resetAt: nat, charged: nat) {
    && Lookup(After(l, run, false), key).count == count
    && Lookup(After(l, run, false), key).resetAt == resetAt
    && Count(History(l, run, false), key, l.window - 1, l.window - 1 + l.window) == charged
  }

  lemma AllowedCounts(h: seq<Outcome>, key: string, now: nat, from: int, to: int)
    ensures Count(h + [Outcome(now, [key], true)], key, from, to) ==
            Count(h, key, from, to) + if from <= now < to then 1 else 0
  {
    assert (h + [Outcome(now, [key], true)])[..|h|] == h;
  }

  lemma OneCharge(l: Limits, run: seq<Attempt>, key: string, now: nat, count: nat, resetAt: nat, charged: nat)
    requires Sensible(l) && Reads(l, run, key, count, resetAt, charged) && now < l.window - 1 + l.window
    requires resetAt <= now || count < l.limit
    ensures Reads(l, run + [Attempt(now, [key])], key,
                  if resetAt <= now then 1 else count + 1, if resetAt <= now then now + l.window else resetAt,
                  charged + if l.window - 1 <= now then 1 else 0)
  {
    var a, b, h := Attempt(now, [key]), After(l, run, false), History(l, run, false);
    assert (run + [a])[..|run|] == run;
    assert Admitted(l, b, a);
    assert History(l, run + [a], false) == h + [Outcome(now, [key], true)];
    AllowedCounts(h, key, now, l.window - 1, l.window - 1 + l.window);
    ChargeAllAt(l, b, [key], now, key);
  }

  /** As many attempts as an open bucket has room for are all charged to it. */
  lemma {:induction false} OpenBucketCharges(
      l: Limits, run: seq<Attempt>, key: string, now: nat, n: nat, count: nat, resetAt: nat, charged: nat)
    requires Sensible(l) && Reads(l, run, key, count, resetAt, charged) && l.window - 1 <= now < resetAt
    requires now < l.window - 1 + l.window && count + n <= l.limit
    ensures Reads(l, Repeated(run, Attempt(now, [key]), n), key, count + n, resetAt, charged + n)
  {
    if n > 0 {
      OpenBucketCharges(l, run, key, now, n - 1, count, resetAt, charged);
      OneCharge(l, Repeated(run, Attempt(now, [key]), n - 1), key, now, count + n - 1, resetAt, charged + n - 1);
    }
  }

  lemma {:induction false} RepeatedFromOne(run: seq<Attempt>, a: Attempt, n: nat)
    requires n > 0
    ensures Repeated(run, a, n) == Repeated(run + [a], a, n - 1)
  {
    if n > 1 { RepeatedFromOne(run, a, n - 1); }
  }

  /** A full bucket that has just expired takes the limit once more. */
  lemma NextWindowCharges(l: Limits, run: seq<Attempt>, key: string, charged: nat)
    requires Sensible(l) && l.window >= 2 && Reads(l, run, key, l.limit, l.window, charged)
    ensures Reads(l, Repeated(run, Attempt(l.window, [key]), l.limit), key,
                  l.limit, l.window + l.window, charged + l.limit)
  {
    var next := Attempt(l.window, [key]);
    OneCharge(l, run, key, l.window, l.limit, l.window, charged);
    OpenBucketCharges(l, run + [next], key, l.window, l.limit - 1, 1, l.window + l.window, charged + 1);
    RepeatedFromOne(run, next, l.limit);
  }

  lemma FirstWindowCharges(l: Limits, key: string)
    requires Sensible(l) && l.window >= 2
    ensures Reads(l, LateBurst(l, key), key, l.limit, l.window, l.limit - 1)
  {
    assert Reads(l, [], key, 0, 0, 0);
    OneCharge(l, [], key, 0, 0, 0, 0);
    assert [] + [Attempt(0, [key])] == [Attempt(0, [key])];
    OpenBucketCharges(l, [Attempt(0, [key])], key, l.window - 1, l.limit - 1, 1, l.window, 0);
  }

  lemma BurstReads(l: Limits, key: string)
    requires Sensible(l) && l.window >= 2
    ensures Reads(l, Burst(l, key), key, l.limit, l.window + l.window, 2 * l.limit - 1)
  {
    FirstWindowCharges(l, key);
    NextWindowCharges(l, LateBurst(l, key), key, l.limit - 1);
  }

  lemma BurstIsTimed(l: Limits, key: string)
    requires Sensible(l)
    ensures Timed(Burst(l, key))
  {
    RepeatedIsTimed([Attempt(0, [key])], key, l.window - 1, l.limit - 1);
    RepeatedIsTimed(LateBurst(l, key), key, l.window, l.limit);
  }

  /** The bound is sharp: with a window of at least two ticks it is attained for every limit. */
  lemma BurstAttainsTheBound(l: Limits, key: string)
    requires Sensible(l) && l.window >= 2
    ensures Timed(Burst(l, key))
    ensures Count(History(l, Burst(l, key), true), key, l.window - 1, l.window - 1 + l.window) == 2 * l.limit - 1
  {
    BurstReads(l, key);
    BurstIsTimed(l, key);
    PruningIsInvisible(l, Burst(l, key));
  }

  /** When the key's last window opened: at the first allowed attempt outside the window before it. */
  function OpenedAt(l: Limits, h: seq<Outcome>, key: string): Opening {
    if h == [] then Never
    else
      var before, o := OpenedAt(l, h[..|h| - 1], key), h[|h| - 1];
      if o.allowed && key in o.keys && (before.Never? || before.time + l.window <= o.now) then At(o.now) else before
  }

  datatype Opening = Never | At(time: nat)

  /** The limiter's buckets are the windows the history tells. */
  lemma {:induction false} BucketsAreWindows(l: Limits, run: seq<Attempt>, key: string)
    requires Sensible(l) && Timed(run)
    ensures var b, window := After(l, run, false), OpenedAt(l, History(l, run, false), key);
            && (key in b <==> window.At?)
            && (key in b ==> b[key].resetAt == window.time + l.window)
  {
    if run != [] {
      var init, a := run[..|run| - 1], run[|run| - 1];
      BucketsAreWindows(l, init, key);
      var h := History(l, init, false);
      assert History(l, run, false)[..|h|] == h;
      var b := After(l, init, false);
      if Admitted(l, b, a) {
        ChargeAllAt(l, b, a.keys, a.now, key);
      } else {
        RefusalKeepsCounts(l, b, a.keys, a.now, key);
      }
    }
  }

  /** The key's window is closed at `now`, or fewer than `limit` attempts were allowed since it opened. */
  ghost predicate HasRoom(l: Limits, h: seq<Outcome>, key: string, now: nat) {
    var window := OpenedAt(l, h, key);
    window.Never? || window.time + l.window <= now || Since(h, key, window.time) < l.limit
  }

  lemma RoomOfBucket(l: Limits, h: seq<Outcome>, b: Buckets, key: string, t: int, now: nat)
    requires Sensible(l) && Tracks(l, h, b, key, t)
    requires key in b <==> OpenedAt(l, h, key).At?
    requires key in b ==> b[key].resetAt == OpenedAt(l, h, key).time + l.window
    ensures HasRoom(l, h, key, now) <==> !Full(l, b, key, now)
  {}

  lemma RoomIff(l: Limits, run: seq<Attempt>, key: string, now: nat)
    requires Sensible(l) && Timed(run)
    ensures HasRoom(l, History(l, run, false), key, now) <==> !Full(l, After(l, run, false), key, now)
  {
    RunTracks(l, run, key);
    BucketsAreWindows(l, run, key);
    RoomOfBucket(l, History(l, run, false), After(l, run, false), key, if run == [] then 0 else run[|run| - 1].now, now);
  }

  /**
   An attempt is allowed exactly when, for each of its keys, no window is open or fewer than `limit`
   attempts were allowed in the open one so far. Only the history of answers matters; refusals never count.
   */
  lemma DecisionByHistory(l: Limits, run: seq<Attempt>, a: Attempt)
    requires Sensible(l) && Timed(run + [a])
    ensures Decision(l, After(l, run, true), a, true) <==>
            forall key :: key in a.keys ==> HasRoom(l, History(l, run, true), key, a.now)
  {
    assert run == (run + [a])[..|run|];
    TimedPrefix(run + [a], |run|);
    assert (run + [a])[|run|] == a;
    PruningIsInvisible(l, run);
    StepRefines(l, After(l, run, true), After(l, run, false), a, if run == [] then 0 else run[|run| - 1].now);
    forall key | key in a.keys
      ensures HasRoom(l, History(l, run, true), key, a.now) <==> !Full(l, After(l, run, false), key, a.now)
    {
      RoomIff(l, run, key, a.now);
    }
    assert Decision(l, After(l, run, false), a, false) <==>
           forall key :: key in a.keys ==> !Full(l, After(l, run, false), key, a.now);
  }
}
