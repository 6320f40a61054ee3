/**
 The signed management handshake: a clock-skew window and a purging nonce cache.

 Times are nanoseconds. The difference of two times is a 64-bit duration and
 saturates; the window test takes its absolute value with 64-bit negation.
 Whether the signature is genuine is given with each attempt.
 */
module Handshake {
  import opened Options

  const MINUTE: int := 60 * 1_000_000_000
  const CLOCK_SKEW: int := 5 * MINUTE
  const NONCE_TTL: int := 10 * MINUTE

  const MIN_DURATION: int := -0x8000_0000_0000_0000
  const MAX_DURATION: int := 0x7FFF_FFFF_FFFF_FFFF

  // The window and the life time of a nonce; the source uses SOURCE.
  datatype Limits = Limits(skew: int, ttl: int)

  const SOURCE: Limits := Limits(CLOCK_SKEW, NONCE_TTL)

  // ----- the window

  function Sub(now: int, stamp: int): int {
    var d := now - stamp;
    if d < MIN_DURATION then MIN_DURATION else if d > MAX_DURATION then MAX_DURATION else d
  }

  function Magnitude(d: int): int
    requires MIN_DURATION <= d <= MAX_DURATION
  {
    if d >= 0 then d else if d == MIN_DURATION then MIN_DURATION else -d
  }

  predicate InWindow(now: int, stamp: int, skew: int) {
    Magnitude(Sub(now, stamp)) <= skew
  }

  /** The window test passes within the skew, and for stamps 2^63 ns or more ahead. */
  lemma InWindowIff(now: int, stamp: int, skew: int)
    requires 0 <= skew < MAX_DURATION
    ensures InWindow(now, stamp, skew) <==> -skew <= now - stamp <= skew || stamp - now >= -MIN_DURATION
  {
  }

  // ----- the nonce cache

  function Purged(items: map<string, int>, now: int): map<string, int> {
    map k | k in items && now <= items[k] :: items[k]
  }

  class NonceCache {
    const ttl: int
    var items: map<string, int>

    constructor (ttl: int)
      ensures this.ttl == ttl && items == map[]
    {
      this.ttl := ttl;
      items := map[];
    }

    method MarkUsed(key: string, now: int) returns (used: bool)
      modifies this`items
      ensures used <==> key in Purged(old(items), now)
      ensures items == if used then Purged(old(items), now) else Purged(old(items), now)[key := now + ttl]
    {
      var keys := items.Keys;
      while keys != {}
        invariant keys <= old(items).Keys
        invariant items == map k | k in old(items) && (k in keys || now <= old(items)[k]) :: old(items)[k]
        decreases keys
      {
        var k :| k in keys;
        keys := keys - {k};
        if now > items[k] {
          items := items - {k};
        }
      }
      assert items == Purged(old(items), now);
      if key in items {
        return true;
      }
      items := items[key := now + ttl];
      return false;
    }
  }

  // ----- one attempt

  datatype Request = Request(device: string, stamp: string, nonce: string, signature: string)

  // A request, the server's clock when it is checked, and whether the signature verifies
  // under the key bound to the device at that time.
  datatype Attempt = Attempt(request: Request, now: int, genuine: bool)

  datatype Outcome = Accepted | MissingHeaders | InvalidTimestamp | OutsideSkew | InvalidSignature | Replayed

  type Parser = string -> Option<int>

  function CacheKey(r: Request): string {
    r.device + ":" + r.nonce
  }

  /** What the checks before the cache say; Accepted when all pass. */
  function Screened(l: Limits, parse: Parser, a: Attempt): Outcome {
    var r := a.request;
    if r.stamp == "" || r.nonce == "" || r.signature == "" then MissingHeaders
    else if parse(r.stamp).None? then InvalidTimestamp
    else if !InWindow(a.now, parse(r.stamp).value, l.skew) then OutsideSkew
    else if !a.genuine then InvalidSignature
    else Accepted
  }

  function Verdict(l: Limits, parse: Parser, items: map<string, int>, a: Attempt): Outcome {
    var s := Screened(l, parse, a);
    if s == Accepted && CacheKey(a.request) in Purged(items, a.now) then Replayed else s
  }

  function After(l: Limits, parse: Parser, items: map<string, int>, a: Attempt): map<string, int> {
    if Screened(l, parse, a) != Accepted then items
    else if Verdict(l, parse, items, a) == Replayed then Purged(items, a.now)
    else Purged(items, a.now)[CacheKey(a.request) := a.now + l.ttl]
  }

  method VerifyBdMgmtRequest(cache: NonceCache, parse: Parser, skew: int, a: Attempt) returns (outcome: Outcome)
    modifies cache`items
    ensures outcome == Verdict(Limits(skew, cache.ttl), parse, old(cache.items), a)
    ensures cache.items == After(Limits(skew, cache.ttl), parse, old(cache.items), a)
  {
    var r := a.request;
    if r.stamp == "" || r.nonce == "" || r.signature == "" {
      return MissingHeaders;
    }
    var stamp := parse(r.stamp);
    if stamp.None? {
      return InvalidTimestamp;
    }
    var delta := Sub(a.now, stamp.value);
    if delta < 0 {
      delta := Magnitude(delta);
    }
    if delta > skew {
      return OutsideSkew;
    }
    if !a.genuine {
      return InvalidSignature;
    }
    var used := cache.MarkUsed(r.device + ":" + r.nonce, a.now);
    if used {
      return Replayed;
    }
    return Accepted;
  }

  // ----- runs

  function State(l: Limits, parse: Parser, run: seq<Attempt>): map<string, int> {
    if run == [] then map[]
    else After(l, parse, State(l, parse, run[..|run| - 1]), run[|run| - 1])
  }

  function OutcomeAt(l: Limits, parse: Parser, run: seq<Attempt>, i: nat): Outcome
    requires i < |run|
  {
    Verdict(l, parse, State(l, parse, run[..i]), run[i])
  }

  /** The clock never goes back in the order in which attempts reach the cache. */
  ghost predicate Ordered(run: seq<Attempt>, start: int) {
    && (forall i :: 0 <= i < |run| ==> start <= run[i].now)
    && (forall i, j :: 0 <= i < j < |run| ==> run[i].now <= run[j].now)
  }

  /** The same signed payload: device, stamp and nonce. The text of the signature may differ,
      since one signature has several encodings. */
  predicate SamePayload(r: Request, q: Request) {
    q.device == r.device && q.stamp == r.stamp && q.nonce == r.nonce
  }

  ghost predicate AcceptedTwice(l: Limits, parse: Parser, run: seq<Attempt>, r: Request, i: nat, j: nat) {
    && i < j < |run| && SamePayload(r, run[i].request) && SamePayload(r, run[j].request)
    && OutcomeAt(l, parse, run, i) == Accepted && OutcomeAt(l, parse, run, j) == Accepted
  }

  /** A nonce accepted at `i` is remembered as long as the clock has not passed its life time. */
  lemma {:induction false} Remembered(l: Limits, parse: Parser, run: seq<Attempt>, i: nat, j: nat)
    requires i < j <= |run| && Ordered(run, run[0].now)
    requires OutcomeAt(l, parse, run, i) == Accepted
    requires run[j - 1].now <= run[i].now + l.ttl
    ensures var s, key := State(l, parse, run[..j]), CacheKey(run[i].request);
            key in s && run[i].now + l.ttl <= s[key]
    decreases j
  {
    assert run[..j][..j - 1] == run[..j - 1];
    if i < j - 1 {
      assert run[j - 2].now <= run[j - 1].now;
      Remembered(l, parse, run, i, j - 1);
    }
  }

  /** A payload whose stamp is less than 2^63 ns ahead of the clock is accepted at most once,
      under whatever signature texts, provided a nonce lives at least twice the skew. */
  lemma AtMostOnce(l: Limits, parse: Parser, run: seq<Attempt>, start: int, r: Request, i: nat, j: nat)
    requires 0 <= l.skew < MAX_DURATION && 2 * l.skew <= l.ttl
    requires Ordered(run, start)
    requires parse(r.stamp).Some? ==> parse(r.stamp).value - start < -MIN_DURATION
    ensures !AcceptedTwice(l, parse, run, r, i, j)
  {
    if i < j < |run| && SamePayload(r, run[i].request) && SamePayload(r, run[j].request)
       && Screened(l, parse, run[i]) == Accepted {
      var t := parse(r.stamp).value;
      InWindowIff(run[i].now, t, l.skew);
      InWindowIff(run[j].now, t, l.skew);
      if OutcomeAt(l, parse, run, i) == Accepted && Screened(l, parse, run[j]) == Accepted {
        assert run[j].now <= run[i].now + l.ttl;
        assert run[j - 1].now <= run[j].now;
        Remembered(l, parse, run, i, j);
      }
    }
  }

  lemma TwoAttempts(l: Limits, parse: Parser, r: Request, c: int, d: int)
    requires r.stamp != "" && r.nonce != "" && r.signature != "" && parse(r.stamp).Some?
    requires InWindow(c, parse(r.stamp).value, l.skew) && InWindow(d, parse(r.stamp).value, l.skew)
    requires c + l.ttl < d && c <= d
    ensures var run := [Attempt(r, c, true), Attempt(r, d, true)];
            Ordered(run, c) && AcceptedTwice(l, parse, run, r, 0, 1)
  {
    var run := [Attempt(r, c, true), Attempt(r, d, true)];
    assert run[..0] == [] && run[..1] == [run[0]];
    var one := [run[0]];
    assert one[..0] == [];
    assert State(l, parse, one) == After(l, parse, map[], run[0]);
    assert CacheKey(r) !in Purged(State(l, parse, one), d);
  }

  /** The life time is tight: whatever the skew, with a shorter one some run accepts a
      signed request twice. */
  lemma ShorterLifeFails(l: Limits, parse: Parser, r: Request)
    requires 0 <= l.skew < MAX_DURATION && 0 <= l.ttl < 2 * l.skew
    requires r.stamp != "" && r.nonce != "" && r.signature != "" && parse(r.stamp).Some?
    ensures var t := parse(r.stamp).value;
            var run := [Attempt(r, t - l.skew, true), Attempt(r, t + l.skew, true)];
            Ordered(run, t - l.skew) && AcceptedTwice(l, parse, run, r, 0, 1)
  {
    var t := parse(r.stamp).value;
    InWindowIff(t - l.skew, t, l.skew);
    InWindowIff(t + l.skew, t, l.skew);
    TwoAttempts(l, parse, r, t - l.skew, t + l.skew);
  }

  ghost predicate Complete(parse: Parser, r: Request) {
    r.stamp != "" && r.nonce != "" && r.signature != "" && parse(r.stamp).Some?
  }

  /** With the source's limits, for a complete request and a clock that starts at `start`: no
      run accepts its payload twice, under whatever signature texts, if and only if its stamp
      is less than 2^63 ns ahead of `start`. */
  lemma AtMostOnceIff(parse: Parser, r: Request, start: int)
    requires Complete(parse, r)
    ensures (forall run, i, j :: Ordered(run, start) ==> !AcceptedTwice(SOURCE, parse, run, r, i, j)) <==>
            parse(r.stamp).value - start < -MIN_DURATION
  {
    var t := parse(r.stamp).value;
    if t - start < -MIN_DURATION {
      forall run, i, j | Ordered(run, start)
        ensures !AcceptedTwice(SOURCE, parse, run, r, i, j)
      {
        AtMostOnce(SOURCE, parse, run, start, r, i, j);
      }
    } else {
      InWindowIff(start, t, SOURCE.skew);
      InWindowIff(t, t, SOURCE.skew);
      TwoAttempts(SOURCE, parse, r, start, t);
    }
  }
  // A device signs with a stamp 2^63 ns after the server's time zero.
  const FAR_REQUEST: Request := Request("device", "2262-04-11T23:47:16.854775808Z", "nonce", "signature")

  const FAR_PARSER: Parser := s => if s == FAR_REQUEST.stamp then Some(0x8000_0000_0000_0000) else None

  /** A stamp 2^63 ns ahead passes the window at once, and again when its time has come. */
  lemma FarStampAcceptedTwice()
    ensures var run := [Attempt(FAR_REQUEST, 0, true), Attempt(FAR_REQUEST, 0x8000_0000_0000_0000, true)];
            Ordered(run, 0) && AcceptedTwice(SOURCE, FAR_PARSER, run, FAR_REQUEST, 0, 1)
  {
    var t := 0x8000_0000_0000_0000;
    InWindowIff(0, t, SOURCE.skew);
    InWindowIff(t, t, SOURCE.skew);
    TwoAttempts(SOURCE, FAR_PARSER, FAR_REQUEST, 0, t);
  }
}
