/** Token buckets for the admin and invite endpoints (src/node/ratelimit.js). */
module RateLimit {
  import opened FiniteSets
  import opened Options

  datatype Limits = Limits(capacity: real, perSecond: real, maxKeys: nat) {
    ghost predicate Valid() {
      capacity >= 0.0 && perSecond >= 0.0
    }
  }

  datatype Bucket = Bucket(tokens: real, at: real)

  type Buckets = map<string, Bucket>

  datatype Outcome = Allowed | Empty | Full

  /** Tokens regained in `ms` milliseconds. */
  function Gain(l: Limits, ms: real): real {
    ms / 1000.0 * l.perSecond
  }

  function Refilled(l: Limits, b: Bucket, now: real): real {
    b.tokens + Gain(l, now - b.at)
  }

  function Level(l: Limits, b: Bucket, now: real): real {
    if Refilled(l, b, now) < l.capacity then Refilled(l, b, now) else l.capacity
  }

  /** A bucket after a call at `now`, and whether the call may proceed. */
  function Take(l: Limits, b: Bucket, now: real): (Bucket, bool) {
    if Level(l, b, now) < 1.0 then (Bucket(Level(l, b, now), now), false)
    else (Bucket(Level(l, b, now) - 1.0, now), true)
  }

  function Sweep(l: Limits, s: Buckets, now: real): Buckets {
    map k | k in s && Refilled(l, s[k], now) < l.capacity :: s[k]
  }

  function Allow(l: Limits, s: Buckets, key: string, now: real): (Buckets, Outcome) {
    if key in s then
      var (b, ok) := Take(l, s[key], now);
      (s[key := b], if ok then Allowed else Empty)
    else
      var swept := if |s| >= l.maxKeys then Sweep(l, s, now) else s;
      if |swept| >= l.maxKeys then (swept, Full) else
      var (b, ok) := Take(l, Bucket(l.capacity, now), now);
      (swept[key := b], if ok then Allowed else Empty)
  }

  class RateLimiter {
    const limits: Limits
    var buckets: Buckets

    constructor (limits: Limits)
      ensures this.limits == limits && buckets == map[]
    {
      this.limits := limits;
      buckets := map[];
    }

    /** Drop the buckets of callers who have been idle long enough to be full again. */
    method SweepFull(now: real)
      modifies this
      ensures buckets == Sweep(limits, old(buckets), now)
    {
      var todo := buckets.Keys;
      while todo != {}
        invariant todo <= old(buckets).Keys
        invariant buckets == map k | k in old(buckets)
                  && (k in todo || Refilled(limits, old(buckets)[k], now) < limits.capacity)
                             :: old(buckets)[k]
      {
        var key :| key in todo;
        var bucket := buckets[key];
        var refilled := bucket.tokens + (now - bucket.at) / 1000.0 * limits.perSecond;
        if refilled >= limits.capacity { buckets := buckets - {key}; }
        todo := todo - {key};
      }
    }

    /** Whether a caller may proceed, with the reason when it may not. */
    method MayProceed(key: string, now: real) returns (ok: bool, ghost why: Outcome)
      requires |buckets| <= limits.maxKeys
      modifies this
      ensures (buckets, why) == Allow(limits, old(buckets), key, now)
      ensures ok == why.Allowed?
      ensures |buckets| <= limits.maxKeys
    {
      StaysSmall(limits, buckets, key, now);
      if key !in buckets {
        if |buckets| >= limits.maxKeys { SweepFull(now); }
        if |buckets| >= limits.maxKeys { return false, Full; }
      }
      ghost var swept := buckets;
      if key !in buckets { buckets := buckets[key := Bucket(limits.capacity, now)]; }
      hide Take;
      ghost var spent := Take(limits, buckets[key], now).0;
      ok := Spend(key, now);
      assert buckets == swept[key := spent];
      why := if ok then Allowed else Empty;
    }

    /** Refill the caller's bucket and take a token from it if there is a whole one. */
    method Spend(key: string, now: real) returns (ok: bool)
      requires key in buckets
      modifies this
      ensures buckets == old(buckets)[key := Take(limits, old(buckets)[key], now).0]
      ensures ok == Take(limits, old(buckets)[key], now).1
    {
      var bucket := buckets[key];
      var refilled := bucket.tokens + (now - bucket.at) / 1000.0 * limits.perSecond;
      assert refilled == Refilled(limits, bucket, now);
      var tokens := if refilled < limits.capacity then refilled else limits.capacity;
      assert tokens == Level(limits, bucket, now);
      buckets := buckets[key := Bucket(tokens, now)];
      if tokens < 1.0 { return false; }
      buckets := buckets[key := Bucket(tokens - 1.0, now)];
      return true;
    }
  }

  /** One call does not make the map outgrow its bound. */
  lemma StaysSmall(l: Limits, s: Buckets, key: string, now: real)
    requires |s| <= l.maxKeys
    ensures |Allow(l, s, key, now).0| <= l.maxKeys
  {
    if key !in s {
      var swept := Sweep(l, s, now);
      assert swept.Keys <= s.Keys;
      SubsetIsNoLarger(swept.Keys, s.Keys);
      assert |swept| == |swept.Keys| && |s| == |s.Keys|;
    } else {
      assert s[key := Take(l, s[key], now).0].Keys == s.Keys;
    }
  }

  // ----- runs -----

  datatype Call = Call(key: string, now: real)

  /** The clock never runs backwards. */
  ghost predicate Monotone(calls: seq<Call>) {
    forall i, j | 0 <= i <= j < |calls| :: calls[i].now <= calls[j].now
  }

  ghost function After(l: Limits, calls: seq<Call>): Buckets
    decreases |calls|
  {
    if calls == [] then map[] else
    var last := calls[|calls| - 1];
    Allow(l, After(l, calls[..|calls| - 1]), last.key, last.now).0
  }

  /** The map never outgrows its bound, in any run, on any clock. */
  lemma {:induction false} RunStaysSmall(l: Limits, calls: seq<Call>)
    ensures |After(l, calls)| <= l.maxKeys
    decreases |calls|
  {
    if calls == [] {
    } else {
      var last := calls[|calls| - 1];
      RunStaysSmall(l, calls[..|calls| - 1]);
      StaysSmall(l, After(l, calls[..|calls| - 1]), last.key, last.now);
    }
  }

  ghost function OutcomeOf(l: Limits, calls: seq<Call>, i: nat): Outcome
    requires i < |calls|
  {
    Allow(l, After(l, calls[..i]), calls[i].key, calls[i].now).1
  }

  // ----- what a swept bucket would have said -----

  /** The bucket a key would have in an unbounded map that is never swept, from its own calls alone. */
  ghost function Unswept(l: Limits, calls: seq<Call>, key: string): Option<Bucket>
    decreases |calls|
  {
    if calls == [] then None else
    var before, last := calls[..|calls| - 1], calls[|calls| - 1];
    if last.key != key || OutcomeOf(l, calls, |calls| - 1).Full? then Unswept(l, before, key)
    else Some(Take(l, Unswept(l, before, key).GetOr(Bucket(l.capacity, last.now)), last.now).0)
  }

  lemma GainAdds(l: Limits, x: real, y: real)
    ensures Gain(l, x + y) == Gain(l, x) + Gain(l, y)
  {
  }

  lemma GainZero(l: Limits)
    ensures Gain(l, 0.0) == 0.0
  {
  }

  lemma GainGrows(l: Limits, x: real)
    requires l.Valid() && x >= 0.0
    ensures Gain(l, x) >= 0.0
  {
  }

  /** The map agrees with the unswept bucket, except that it may lack one that is full. */
  ghost predicate Mirrors(l: Limits, s: Buckets, unswept: Option<Bucket>, key: string, now: real) {
    if key in s then unswept == Some(s[key])
    else unswept.Some? ==> Refilled(l, unswept.value, now) >= l.capacity && unswept.value.at <= now
  }

  lemma MirrorsLater(l: Limits, s: Buckets, unswept: Option<Bucket>, key: string, t: real, now: real)
    requires l.Valid() && t <= now && Mirrors(l, s, unswept, key, t)
    ensures Mirrors(l, s, unswept, key, now)
  {
    if key !in s && unswept.Some? {
      GainAdds(l, t - unswept.value.at, now - t);
      assert (t - unswept.value.at) + (now - t) == now - unswept.value.at;
      GainGrows(l, now - t);
      hide Gain;
    }
  }

  /** A full bucket decides and ends like one created on the spot. */
  lemma FullIsFresh(l: Limits, b: Bucket, now: real)
    requires Refilled(l, b, now) >= l.capacity
    ensures Take(l, b, now) == Take(l, Bucket(l.capacity, now), now)
  {
    assert now - now == 0.0 && Gain(l, 0.0) == 0.0;
    assert Refilled(l, Bucket(l.capacity, now), now) == l.capacity;
  }

  ghost function LastTime(calls: seq<Call>, now: real): real {
    if calls == [] then now else calls[|calls| - 1].now
  }

  lemma {:induction false} MapMirrorsUnswept(l: Limits, calls: seq<Call>, key: string, now: real)
    requires l.Valid() && Monotone(calls) && LastTime(calls, now) <= now
    ensures Mirrors(l, After(l, calls), Unswept(l, calls, key), key, now)
    ensures Unswept(l, calls, key).Some? ==> Unswept(l, calls, key).value.at <= now
    decreases |calls|
  {
    if calls == [] {
    } else {
      var n := |calls| - 1;
      var before, last := calls[..n], calls[n];
      var s, u := After(l, before), Unswept(l, before, key);
      assert n > 0 ==> calls[n - 1].now <= last.now;
      MapMirrorsUnswept(l, before, key, last.now);
      AllowMirrors(l, s, u, key, last);
      MirrorsLater(l, After(l, calls), Unswept(l, calls, key), key, last.now, now);
    }
  }

  lemma AllowMirrors(l: Limits, s: Buckets, u: Option<Bucket>, key: string, c: Call)
    requires l.Valid() && Mirrors(l, s, u, key, c.now) && (u.Some? ==> u.value.at <= c.now)
    ensures var (t, outcome) := Allow(l, s, c.key, c.now);
            var u' := if c.key != key || outcome.Full? then u
                      else Some(Take(l, u.GetOr(Bucket(l.capacity, c.now)), c.now).0);
            Mirrors(l, t, u', key, c.now)
    ensures var outcome := Allow(l, s, key, c.now).1;
            !outcome.Full? ==>
              (outcome.Allowed? <==> Take(l, u.GetOr(Bucket(l.capacity, c.now)), c.now).1)
  {
    if key !in s && u.Some? {
      FullIsFresh(l, u.value, c.now);
    }
    hide Take, Gain;
  }

  /**
   Sweeping is invisible and keys are isolated: every call that is not turned away because the map
   is full is answered as the key's own bucket, never swept, would answer from that key's calls alone.
   */
  lemma SweepIsInvisible(l: Limits, calls: seq<Call>, i: nat)
    requires l.Valid() && Monotone(calls) && i < |calls| && !OutcomeOf(l, calls, i).Full?
    ensures OutcomeOf(l, calls, i).Allowed?
       <==> Take(l, Unswept(l, calls[..i], calls[i].key).GetOr(Bucket(l.capacity, calls[i].now)), calls[i].now).1
  {
    var before, c := calls[..i], calls[i];
    assert i > 0 ==> before[i - 1] == calls[i - 1];
    MapMirrorsUnswept(l, before, c.key, c.now);
    AllowMirrors(l, After(l, before), Unswept(l, before, c.key), c.key, c);
  }

  // ----- the bound -----

  /** What a key could still spend at `now`. */
  ghost function Available(l: Limits, s: Buckets, key: string, now: real): real {
    if key in s then Level(l, s[key], now) else l.capacity
  }

  ghost function Allowances(l: Limits, calls: seq<Call>, key: string, i: nat, j: nat): nat
    requires i <= j <= |calls|
    decreases j
  {
    if i == j then 0
    else Allowances(l, calls, key, i, j - 1)
         + if calls[j - 1].key == key && OutcomeOf(l, calls, j - 1).Allowed? then 1 else 0
  }

  ghost predicate Sane(l: Limits, s: Buckets, now: real) {
    forall k <- s :: 0.0 <= s[k].tokens && s[k].at <= now
  }

  /** A call costs the key it names one token if it is allowed; no call gives anyone a token. */
  lemma CallCosts(l: Limits, s: Buckets, c: Call, key: string)
    requires l.Valid() && Sane(l, s, c.now)
    ensures var (t, outcome) := Allow(l, s, c.key, c.now);
            && Sane(l, t, c.now)
            && Available(l, t, key, c.now) + (if c.key == key && outcome.Allowed? then 1.0 else 0.0)
               <= Available(l, s, key, c.now)
  {
    assert c.now - c.now == 0.0 && Gain(l, 0.0) == 0.0;
    forall k | k in s
      ensures Gain(l, c.now - s[k].at) >= 0.0
    {
      GainGrows(l, c.now - s[k].at);
    }
    hide Gain;
  }

  /** Waiting adds at most what the refill rate gives. */
  lemma WaitingGains(l: Limits, s: Buckets, key: string, t: real, now: real)
    requires l.Valid() && t <= now
    ensures Available(l, s, key, now) <= Available(l, s, key, t) + Gain(l, now - t)
    ensures Available(l, s, key, t) <= l.capacity
  {
    GainGrows(l, now - t);
    if key in s {
      GainAdds(l, t - s[key].at, now - t);
      assert (t - s[key].at) + (now - t) == now - s[key].at;
    }
    hide Gain;
  }

  lemma {:induction false} RunIsSane(l: Limits, calls: seq<Call>, now: real)
    requires l.Valid() && Monotone(calls) && LastTime(calls, now) <= now
    ensures Sane(l, After(l, calls), now)
    decreases |calls|
  {
    if calls == [] {
    } else {
      var n := |calls| - 1;
      assert n > 0 ==> calls[n - 1].now <= calls[n].now;
      RunIsSane(l, calls[..n], calls[n].now);
      CallCosts(l, After(l, calls[..n]), calls[n], calls[n].key);
    }
  }

  lemma LastCosts(l: Limits, calls: seq<Call>, key: string, j: nat)
    requires l.Valid() && Monotone(calls) && 0 < j <= |calls|
    ensures var c, s := calls[j - 1], After(l, calls[..j - 1]);
            Available(l, After(l, calls[..j]), key, c.now)
              + (if c.key == key && OutcomeOf(l, calls, j - 1).Allowed? then 1.0 else 0.0)
            <= Available(l, s, key, c.now)
  {
    hide Gain, Allow, Available;
    var c := calls[j - 1];
    assert calls[..j][..j - 1] == calls[..j - 1];
    assert j > 1 ==> calls[..j - 1][j - 2] == calls[j - 2] && calls[j - 2].now <= c.now;
    RunIsSane(l, calls[..j - 1], c.now);
    CallCosts(l, After(l, calls[..j - 1]), c, key);
  }

  /** The window from call `i` up to call `j`: what was allowed, and what is still left at its end. */
  lemma {:induction false} WindowSpends(l: Limits, calls: seq<Call>, key: string, i: nat, j: nat)
    requires l.Valid() && Monotone(calls) && i < j <= |calls|
    ensures Allowances(l, calls, key, i, j) as real + Available(l, After(l, calls[..j]), key, calls[j - 1].now)
         <= l.capacity + Gain(l, calls[j - 1].now - calls[i].now)
    decreases j
  {
    hide Gain, Allow, Available, After;
    var c := calls[j - 1];
    var s := After(l, calls[..j - 1]);
    assert j > 1 ==> calls[j - 2].now <= c.now;
    LastCosts(l, calls, key, j);
    GainZero(l);
    if j == i + 1 {
      WaitingGains(l, s, key, c.now, c.now);
      assert Allowances(l, calls, key, i, i) == 0;
    } else {
      WindowSpends(l, calls, key, i, j - 1);
      WaitingGains(l, s, key, calls[j - 2].now, c.now);
      GainAdds(l, calls[j - 2].now - calls[i].now, c.now - calls[j - 2].now);
      assert (calls[j - 2].now - calls[i].now) + (c.now - calls[j - 2].now) == c.now - calls[i].now;
    }
  }

  /**
   The rate limit: over any run of a clock that never goes back, whatever other keys do and however
   often buckets are swept and created again, the calls allowed for one key in a window are at
   most the capacity plus what the refill rate gives over its length.
   */
  lemma RateIsLimited(l: Limits, calls: seq<Call>, key: string, i: nat, j: nat)
    requires l.Valid() && Monotone(calls) && i < j <= |calls|
    ensures Allowances(l, calls, key, i, j) as real
         <= l.capacity + (calls[j - 1].now - calls[i].now) / 1000.0 * l.perSecond
  {
    hide *;
    WindowSpends(l, calls, key, i, j);
    NothingOwed(l, calls, key, j);
    SpelledOut(l, Allowances(l, calls, key, i, j) as real, calls[j - 1].now - calls[i].now);
  }

  lemma SpelledOut(l: Limits, n: real, ms: real)
    ensures n <= l.capacity + Gain(l, ms) <==> n <= l.capacity + ms / 1000.0 * l.perSecond
  {
  }

  lemma NothingOwed(l: Limits, calls: seq<Call>, key: string, j: nat)
    requires l.Valid() && Monotone(calls) && 0 < j <= |calls|
    ensures Available(l, After(l, calls[..j]), key, calls[j - 1].now) >= 0.0
  {
    assert calls[..j][j - 1] == calls[j - 1];
    RunIsSane(l, calls[..j], calls[j - 1].now);
    var s, now := After(l, calls[..j]), calls[j - 1].now;
    if key in s { GainGrows(l, now - s[key].at); }
    hide After, Gain;
  }

  // ----- the bound is met -----

  /** Calls allowed in the window from `k` on, counting back from the full bucket the window began with. */
  ghost predicate Explains(l: Limits, calls: seq<Call>, key: string, k: nat, n: nat, b: Bucket) {
    && k < n <= |calls| && calls[k].key == key
    && b.tokens == l.capacity - Allowances(l, calls, key, k, n) as real + Gain(l, b.at - calls[k].now)
  }

  ghost predicate IsExplained(l: Limits, calls: seq<Call>, key: string, n: nat, b: Bucket) {
    exists k: nat :: Explains(l, calls, key, k, n, b)
  }

  lemma AllowancesStep(l: Limits, calls: seq<Call>, key: string, k: nat, n: nat)
    requires k <= n < |calls|
    ensures Allowances(l, calls, key, k, n + 1) ==
            Allowances(l, calls, key, k, n) + if calls[n].key == key && OutcomeOf(l, calls, n).Allowed? then 1 else 0
  {
  }

  /** What a call leaves in its key's bucket is explained by the window that explained the bucket, or by a new one. */
  lemma TakeIsExplained(l: Limits, calls: seq<Call>, k: Option<nat>, n: nat, b: Bucket)
    requires n < |calls| && !OutcomeOf(l, calls, n).Full?
    requires OutcomeOf(l, calls, n).Allowed? <==> Take(l, b, calls[n].now).1
    requires match k
             case Some(start) => Explains(l, calls, calls[n].key, start, n, b)
             case None => b == Bucket(l.capacity, calls[n].now)
    ensures IsExplained(l, calls, calls[n].key, n + 1, Take(l, b, calls[n].now).0)
    ensures Level(l, b, calls[n].now) == l.capacity
            || (k.Some? && Level(l, b, calls[n].now)
                == l.capacity - Allowances(l, calls, calls[n].key, k.value, n) as real
                  + Gain(l, calls[n].now - calls[k.value].now))
  {
    var c := calls[n];
    FreshIsFull(l, c.now);
    hide OutcomeOf, Gain, Explains, Level, Take, Allowances;
    if Level(l, b, c.now) == l.capacity {
      NewWindow(l, calls, n, b);
    } else {
      SameWindow(l, calls, k.value, n, b);
    }
  }

  lemma FreshIsFull(l: Limits, now: real)
    ensures Level(l, Bucket(l.capacity, now), now) == l.capacity
  {
    GainZero(l);
    assert now - now == 0.0;
    hide Gain;
  }

  lemma NewWindow(l: Limits, calls: seq<Call>, n: nat, b: Bucket)
    requires n < |calls| && (OutcomeOf(l, calls, n).Allowed? <==> Take(l, b, calls[n].now).1)
    requires Level(l, b, calls[n].now) == l.capacity
    ensures Explains(l, calls, calls[n].key, n, n + 1, Take(l, b, calls[n].now).0)
  {
    AllowancesStep(l, calls, calls[n].key, n, n);
    GainZero(l);
    assert calls[n].now - calls[n].now == 0.0;
    hide OutcomeOf, Gain, Level;
  }

  lemma SameWindow(l: Limits, calls: seq<Call>, k: nat, n: nat, b: Bucket)
    requires n < |calls| && (OutcomeOf(l, calls, n).Allowed? <==> Take(l, b, calls[n].now).1)
    requires Level(l, b, calls[n].now) != l.capacity && Explains(l, calls, calls[n].key, k, n, b)
    ensures Explains(l, calls, calls[n].key, k, n + 1, Take(l, b, calls[n].now).0)
    ensures Level(l, b, calls[n].now)
         == l.capacity - Allowances(l, calls, calls[n].key, k, n) as real + Gain(l, calls[n].now - calls[k].now)
  {
    hide OutcomeOf, Gain;
    var c := calls[n];
    AllowancesStep(l, calls, c.key, k, n);
    GainAdds(l, b.at - calls[k].now, c.now - b.at);
    assert (b.at - calls[k].now) + (c.now - b.at) == c.now - calls[k].now;
    assert Level(l, b, c.now) == Refilled(l, b, c.now);
    hide Level, Allowances;
  }

  /** The answer to a call, by its key's unswept bucket. */
  lemma AnswerByUnswept(l: Limits, calls: seq<Call>, n: nat)
    requires l.Valid() && Monotone(calls) && n < |calls| && !OutcomeOf(l, calls, n).Full?
    ensures var b := Unswept(l, calls[..n], calls[n].key).GetOr(Bucket(l.capacity, calls[n].now));
            && (OutcomeOf(l, calls, n).Allowed? <==> Take(l, b, calls[n].now).1)
            && Unswept(l, calls[..n + 1], calls[n].key) == Some(Take(l, b, calls[n].now).0)
  {
    SweepIsInvisible(l, calls, n);
    OutcomeOfPrefix(l, calls, n, n + 1);
    assert calls[..n + 1][..n] == calls[..n];
    hide Take, Allow;
  }

  lemma OutcomeOfPrefix(l: Limits, calls: seq<Call>, i: nat, n: nat)
    requires i < n <= |calls|
    ensures OutcomeOf(l, calls[..n], i) == OutcomeOf(l, calls, i)
  {
    assert calls[..n][..i] == calls[..i];
  }

  /** Every bucket that was never swept is explained by some window. */
  lemma {:induction false} UnsweptIsExplained(l: Limits, calls: seq<Call>, key: string, n: nat)
    requires l.Valid() && Monotone(calls) && n <= |calls|
    ensures Unswept(l, calls[..n], key).Some? ==>
              IsExplained(l, calls, key, n, Unswept(l, calls[..n], key).value)
    decreases n
  {
    if n == 0 {
    } else {
      UnsweptIsExplained(l, calls, key, n - 1);
      var u := Unswept(l, calls[..n - 1], key);
      assert calls[..n][..n - 1] == calls[..n - 1];
      OutcomeOfPrefix(l, calls, n - 1, n);
      if calls[n - 1].key == key && !OutcomeOf(l, calls, n - 1).Full? {
        AnswerByUnswept(l, calls, n - 1);
        var k := None;
        if u.Some? {
          var start: nat :| Explains(l, calls, key, start, n - 1, u.value);
          k := Some(start);
        }
        TakeIsExplained(l, calls, k, n - 1, u.GetOr(Bucket(l.capacity, calls[n - 1].now)));
      } else if u.Some? {
        var start: nat :| Explains(l, calls, key, start, n - 1, u.value);
        AllowancesStep(l, calls, key, start, n - 1);
        assert Explains(l, calls, key, start, n, u.value);
      }
    }
  }

  /**
   The limit is met: a call that finds room in the map is refused exactly when allowing it would put more calls
   of its key than the capacity and the refill into some window that ends with it.
   */
  lemma RefusedIff(l: Limits, calls: seq<Call>, i: nat)
    requires l.Valid() && Monotone(calls) && i < |calls| && !OutcomeOf(l, calls, i).Full?
    ensures OutcomeOf(l, calls, i).Empty? <==>
            exists k: nat | k <= i :: Overflows(l, calls, k, i)
  {
    hide *;
    RefusedByLevel(l, calls, i);
    if OutcomeOf(l, calls, i).Empty? {
      RefusedOverflows(l, calls, i);
    } else {
      forall k: nat | k <= i
        ensures !Overflows(l, calls, k, i)
      {
        NoOverflow(l, calls, k, i);
      }
    }
  }

  /** What the key of call `i` could spend, by its unswept bucket. */
  ghost function LevelAt(l: Limits, calls: seq<Call>, i: nat): real
    requires i < |calls|
  {
    Level(l, Unswept(l, calls[..i], calls[i].key).GetOr(Bucket(l.capacity, calls[i].now)), calls[i].now)
  }

  lemma RefusedByLevel(l: Limits, calls: seq<Call>, i: nat)
    requires l.Valid() && Monotone(calls) && i < |calls| && !OutcomeOf(l, calls, i).Full?
    ensures OutcomeOf(l, calls, i).Empty? <==> LevelAt(l, calls, i) < 1.0
    ensures !OutcomeOf(l, calls, i).Empty? ==> OutcomeOf(l, calls, i).Allowed?
  {
    AnswerByUnswept(l, calls, i);
    hide OutcomeOf, Unswept, Level;
  }

  lemma RefusedOverflows(l: Limits, calls: seq<Call>, i: nat)
    requires l.Valid() && Monotone(calls) && i < |calls| && !OutcomeOf(l, calls, i).Full? && LevelAt(l, calls, i) < 1.0
    ensures exists k: nat | k <= i :: Overflows(l, calls, k, i)
  {
    var c := calls[i];
    var u := Unswept(l, calls[..i], c.key);
    UnsweptIsExplained(l, calls, c.key, i);
    AnswerByUnswept(l, calls, i);
    hide OutcomeOf, Unswept, Gain, Overflows, Level, Take, Allowances;
    var k := None;
    if u.Some? {
      var start: nat :| Explains(l, calls, c.key, start, i, u.value);
      k := Some(start);
    }
    TakeIsExplained(l, calls, k, i, u.GetOr(Bucket(l.capacity, c.now)));
    if LevelAt(l, calls, i) == l.capacity {
      OverflowsFresh(l, calls, i);
    } else {
      OverflowsSince(l, calls, k.value, i, LevelAt(l, calls, i));
    }
  }

  lemma OverflowsFresh(l: Limits, calls: seq<Call>, i: nat)
    requires i < |calls| && l.capacity < 1.0
    ensures Overflows(l, calls, i, i)
  {
    assert calls[i].now - calls[i].now == 0.0;
  }

  lemma OverflowsSince(l: Limits, calls: seq<Call>, k: nat, i: nat, level: real)
    requires k <= i < |calls| && level < 1.0
    requires level == l.capacity - Allowances(l, calls, calls[i].key, k, i) as real
             + Gain(l, calls[i].now - calls[k].now)
    ensures Overflows(l, calls, k, i)
  {
    OverflowIs(l, calls, k, i);
    hide Gain, Allowances, Overflows;
  }

  lemma NoOverflow(l: Limits, calls: seq<Call>, k: nat, i: nat)
    requires l.Valid() && Monotone(calls) && k <= i < |calls| && OutcomeOf(l, calls, i).Allowed?
    ensures !Overflows(l, calls, k, i)
  {
    hide *;
    WindowSpends(l, calls, calls[i].key, k, i + 1);
    NothingOwed(l, calls, calls[i].key, i + 1);
    AllowancesStep(l, calls, calls[i].key, k, i);
    OverflowIs(l, calls, k, i);
  }

  lemma OverflowIs(l: Limits, calls: seq<Call>, k: nat, i: nat)
    requires k <= i < |calls|
    ensures Overflows(l, calls, k, i) <==>
            Allowances(l, calls, calls[i].key, k, i) as real + 1.0 > l.capacity + Gain(l, calls[i].now - calls[k].now)
  {
    SpelledOut(l, Allowances(l, calls, calls[i].key, k, i) as real + 1.0, calls[i].now - calls[k].now);
    hide Allowances, Gain;
  }

  /** With the call `i`, more calls of its key since call `k` than the capacity and the refill since then. */
  ghost predicate Overflows(l: Limits, calls: seq<Call>, k: nat, i: nat)
    requires k <= i < |calls|
  {
    Allowances(l, calls, calls[i].key, k, i) as real + 1.0
    > l.capacity + (calls[i].now - calls[k].now) / 1000.0 * l.perSecond
  }

  /**
   A call is turned away for a full map exactly when its key is new to a map of `maxKeys` keys, none of them
   refilled.
   */
  lemma FullIff(l: Limits, calls: seq<Call>, i: nat)
    requires i < |calls|
    ensures var s, c := After(l, calls[..i]), calls[i];
            OutcomeOf(l, calls, i).Full? <==> c.key !in s && |s| == l.maxKeys && NoneRefilled(l, s, c.now)
  {
    var s, c := After(l, calls[..i]), calls[i];
    RunStaysSmall(l, calls[..i]);
    CrowdedIff(l, s, c.now);
    hide After, Take, Sweep;
  }

  /** No bucket is full again. */
  ghost predicate NoneRefilled(l: Limits, s: Buckets, now: real) {
    forall k <- s :: s[k].tokens + (now - s[k].at) / 1000.0 * l.perSecond < l.capacity
  }

  lemma CrowdedIff(l: Limits, s: Buckets, now: real)
    requires |s| <= l.maxKeys
    ensures |s| >= l.maxKeys && |Sweep(l, s, now)| >= l.maxKeys <==>
            |s| == l.maxKeys && NoneRefilled(l, s, now)
  {
    var swept := Sweep(l, s, now);
    assert NoneRefilled(l, s, now) <==> forall k <- s :: k in swept;
    hide Gain, NoneRefilled;
    assert |swept| == |swept.Keys| && |s| == |s.Keys| && swept.Keys <= s.Keys;
    if swept.Keys == s.Keys {
    } else {
      var k :| k in s && k !in swept;
      SubsetIsNoLarger(swept.Keys, s.Keys - {k});
    }
  }
}
