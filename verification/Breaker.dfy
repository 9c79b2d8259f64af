/** The DNS-over-HTTPS resolver and its breaker (src/node/doh.js:152-217). */
module Breaker {
  import opened Bytes
  import opened Options
  import W = DnsWire

  datatype Settings = Settings(threshold: nat, coolOff: nat, utf8: W.Utf8) {
    ghost predicate Valid() {
      threshold > 0
    }
  }

  datatype Lookup = Lookup(host: string, cb: nat)

  datatype Act =
    | Requested(lookup: Lookup, query: bytes)
    | FellBack(lookup: Lookup)
    | Answered(lookup: Lookup, addresses: seq<string>)

  datatype State = State(failures: nat, openUntil: nat, waiting: multiset<Lookup>, log: seq<Act>)

  const START := State(0, 0, multiset{}, [])

  /** What an HTTPS reply is worth: a transport error, a bad message and an empty answer are all failures. */
  function Verdict(reply: Option<bytes>): Option<seq<string>> {
    if reply.None? then None else
    match W.DecodeAnswer(reply.value)
    case Bad(_) => None
    case Good(addresses) => if addresses == [] then None else Some(addresses)
  }

  function Ask(c: Settings, s: State, l: Lookup, now: nat): State {
    if now < s.openUntil || W.Query(c.utf8, l.host).None? then s.(log := s.log + [FellBack(l)])
    else s.(waiting := s.waiting + multiset{l}, log := s.log + [Requested(l, W.Query(c.utf8, l.host).value)])
  }

  function Fail(c: Settings, s: State, l: Lookup, now: nat): State {
    var failures := s.failures + 1;
    s.(failures := failures,
       openUntil := if failures == c.threshold then now + c.coolOff else s.openUntil,
       log := s.log + [FellBack(l)])
  }

  function Reply(c: Settings, s: State, l: Lookup, reply: Option<bytes>, now: nat): State {
    var t := s.(waiting := s.waiting - multiset{l});
    match Verdict(reply)
    case None => Fail(c, t, l, now)
    case Some(addresses) => t.(failures := 0, log := t.log + [Answered(l, addresses)])
  }

  predicate Open(s: State, now: nat) {
    now < s.openUntil
  }

  datatype Event =
    | Asks(lookup: Lookup, now: nat)
    | Replies(lookup: Lookup, reply: Option<bytes>, now: nat)

  function Step(c: Settings, s: State, e: Event): State {
    match e
    case Asks(l, now) => Ask(c, s, l, now)
    case Replies(l, reply, now) => Reply(c, s, l, reply, now)
  }

  function Run(c: Settings, events: seq<Event>): State
    decreases |events|
  {
    if events == [] then START else Step(c, Run(c, events[..|events| - 1]), events[|events| - 1])
  }

  // ----- the object -----

  class Resolver {
    const settings: Settings
    var consecutiveFailures: nat
    var openUntil: nat
    var waiting: multiset<Lookup>
    var log: seq<Act>

    ghost function View(): State
      reads this
    {
      State(consecutiveFailures, openUntil, waiting, log)
    }

    constructor (settings: Settings)
      ensures this.settings == settings && View() == START
    {
      this.settings := settings;
      consecutiveFailures, openUntil, waiting, log := 0, 0, multiset{}, [];
    }

    method UseFallback(l: Lookup)
      modifies `log
      ensures log == old(log) + [FellBack(l)]
    {
      log := log + [FellBack(l)];
    }

    method NoteFailure(l: Lookup, now: nat)
      modifies this
      ensures View() == Fail(settings, old(View()), l, now)
    {
      consecutiveFailures := consecutiveFailures + 1;
      if consecutiveFailures == settings.threshold {
        openUntil := now + settings.coolOff;
      }
      UseFallback(l);
    }

    method Resolve4(l: Lookup, now: nat)
      modifies this
      ensures View() == Ask(settings, old(View()), l, now)
    {
      if now < openUntil {
        UseFallback(l);
        return;
      }
      var query := W.EncodeQuery(settings.utf8, l.host);
      if query.None? {
        UseFallback(l);
        return;
      }
      waiting := waiting + multiset{l};
      log := log + [Requested(l, query.value)];
    }

    method OnReply(l: Lookup, reply: Option<bytes>, now: nat)
      modifies this
      ensures View() == Reply(settings, old(View()), l, reply, now)
    {
      hide W.DecodeAnswer;
      waiting := waiting - multiset{l};
      if reply.None? {
        NoteFailure(l, now);
        return;
      }
      var answer := W.Decode(reply.value);
      if answer.Bad? || answer.addresses == [] {
        NoteFailure(l, now);
        return;
      }
      consecutiveFailures := 0;
      log := log + [Answered(l, answer.addresses)];
    }
  }

  // ----- runs -----

  ghost predicate Monotone(events: seq<Event>) {
    forall i, j | 0 <= i <= j < |events| :: events[i].now <= events[j].now
  }

  predicate Fails(e: Event) {
    e.Replies? && Verdict(e.reply).None?
  }

  predicate Succeeds(e: Event) {
    e.Replies? && Verdict(e.reply).Some?
  }

  /** Failed replies since the last one with an address in it, whatever was asked or refused in between. */
  ghost function Streak(events: seq<Event>): nat
    decreases |events|
  {
    if events == [] then 0 else
    var before, e := Streak(events[..|events| - 1]), events[|events| - 1];
    if Succeeds(e) then 0 else if Fails(e) then before + 1 else before
  }

  /** The `i`th event brings a streak to the threshold. */
  ghost predicate Trips(c: Settings, events: seq<Event>, i: nat) {
    i < |events| && Fails(events[i]) && Streak(events[..i + 1]) == c.threshold
  }

  lemma {:induction false} FailuresAreTheStreak(c: Settings, events: seq<Event>)
    ensures Run(c, events).failures == Streak(events)
    decreases |events|
  {
    if events == [] {
    } else {
      FailuresAreTheStreak(c, events[..|events| - 1]);
      hide Verdict, W.Query;
    }
  }

  lemma PrefixTrips(c: Settings, events: seq<Event>, n: nat, i: nat)
    requires i < n <= |events|
    ensures Trips(c, events[..n], i) <==> Trips(c, events, i)
  {
    assert events[..n][..i + 1] == events[..i + 1];
  }

  /** `now` is within the cool-off of a reply that brought a streak to the threshold. */
  ghost predicate Tripped(c: Settings, events: seq<Event>, now: nat) {
    exists i: nat :: Trips(c, events, i) && now < events[i].now + c.coolOff
  }

  lemma TrippedSnoc(c: Settings, events: seq<Event>, now: nat)
    requires events != []
    ensures var n := |events| - 1;
            Tripped(c, events, now)
            <==> Tripped(c, events[..n], now) || (Trips(c, events, n) && now < events[n].now + c.coolOff)
  {
    var n := |events| - 1;
    forall i: nat | i < n
      ensures Trips(c, events[..n], i) <==> Trips(c, events, i)
      ensures events[..n][i] == events[i]
    {
      PrefixTrips(c, events, n, i);
    }
    hide Streak, Fails;
  }

  lemma TrippedBounds(c: Settings, events: seq<Event>, now: nat, last: nat)
    requires Tripped(c, events, now) && forall i | 0 <= i < |events| :: events[i].now <= last
    ensures now < last + c.coolOff
  {
  }

  lemma OpenStep(c: Settings, events: seq<Event>)
    requires events != []
    ensures var n := |events| - 1;
            Run(c, events).openUntil == if Trips(c, events, n) then events[n].now + c.coolOff
              else Run(c, events[..n]).openUntil
  {
    hide Verdict, W.Query, Streak;
    var n := |events| - 1;
    var s := Run(c, events[..n]);
    FailuresAreTheStreak(c, events);
    FailuresAreTheStreak(c, events[..n]);
    assert events[..n + 1] == events && Run(c, events) == Step(c, s, events[n]);
    hide Run;
  }

  /** The breaker is open exactly within the cool-off of some reply that brought a streak to the threshold. */
  lemma {:induction false} OpenAfterATrip(c: Settings, events: seq<Event>, now: nat)
    requires Monotone(events)
    ensures Open(Run(c, events), now) <==> Tripped(c, events, now)
    decreases |events|
  {
    if events == [] {
    } else {
      var n := |events| - 1;
      OpenAfterATrip(c, events[..n], now);
      OpenStep(c, events);
      TrippedSnoc(c, events, now);
      hide Run, Tripped, Trips;
      if Trips(c, events, n) && Tripped(c, events[..n], now) {
        TrippedBounds(c, events[..n], now, events[n].now);
      }
    }
  }

  /** The reply that brought the streak still running to the threshold. */
  ghost function TripOf(c: Settings, events: seq<Event>): (i: nat)
    requires c.Valid() && Streak(events) >= c.threshold
    ensures Trips(c, events, i)
    decreases |events|
  {
    var n: nat := |events| - 1;
    assert events[..n + 1] == events;
    if Trips(c, events, n) then n else
    var i := TripOf(c, events[..n]);
    PrefixTrips(c, events, n, i);
    i
  }

  lemma {:induction false} TripIsLast(c: Settings, events: seq<Event>, i: nat)
    requires c.Valid() && Streak(events) >= c.threshold && Trips(c, events, i)
    ensures i <= TripOf(c, events)
    decreases |events|
  {
    var n: nat := |events| - 1;
    assert events[..n + 1] == events;
    if !Trips(c, events, n) {
      PrefixTrips(c, events, n, i);
      TripIsLast(c, events[..n], i);
    }
  }

  /**
   The breaker opens once in a streak: however many replies fail beyond the threshold, it is open for one
   cool-off from the reply that reached the threshold and closed from then on.
   */
  lemma OpensOncePerStreak(c: Settings, events: seq<Event>, now: nat)
    requires c.Valid() && Monotone(events) && Streak(events) >= c.threshold
    ensures Open(Run(c, events), now) <==> now < events[TripOf(c, events)].now + c.coolOff
  {
    OpenAfterATrip(c, events, now);
    var trip := TripOf(c, events);
    assert trip < |events|;
    forall i: nat | Trips(c, events, i)
      ensures i <= trip && events[i].now <= events[trip].now
    {
      TripIsLast(c, events, i);
    }
    hide Run, TripOf, Streak, Verdict, Fails;
  }

  /**
   The promise beside the breaker is that an outage costs one timeout and not one per lookup, so that
   every failure from the threshold on should keep it open for a cool-off.  That holds of exactly
   those failures that come no later than the one that reached the threshold.
   */
  lemma FailureHoldsItOpen(c: Settings, events: seq<Event>)
    requires c.Valid() && Monotone(events) && events != [] && Streak(events) >= c.threshold
    ensures HeldOpen(Run(c, events), events[|events| - 1].now, c.coolOff)
       <==> c.coolOff == 0 || events[|events| - 1].now == events[TripOf(c, events)].now
  {
    var s, last, trip := Run(c, events), events[|events| - 1].now, events[TripOf(c, events)].now;
    assert trip <= last;
    forall now: nat
      ensures Open(s, now) <==> now < trip + c.coolOff
    {
      OpensOncePerStreak(c, events, now);
    }
    hide Run, TripOf, Streak, Monotone;
    HeldOpenIff(s, last, trip, c.coolOff);
  }

  ghost predicate HeldOpen(s: State, start: nat, coolOff: nat) {
    forall now: nat | start <= now < start + coolOff :: Open(s, now)
  }

  lemma HeldOpenIff(s: State, last: nat, trip: nat, coolOff: nat)
    requires trip <= last && forall now: nat :: Open(s, now) <==> now < trip + coolOff
    ensures HeldOpen(s, last, coolOff) <==> coolOff == 0 || last == trip
  {
    if coolOff > 0 && last > trip {
      assert !Open(s, last + coolOff - 1);
    }
  }

  /** A request that times out. */
  function TimedOut(l: Lookup, now: nat): Event {
    Replies(l, None, now)
  }

  lemma TimeoutCounts(c: Settings, events: seq<Event>, l: Lookup, now: nat)
    ensures var before, after := Run(c, events), Run(c, events + [TimedOut(l, now)]);
            && after.failures == before.failures + 1
            && after.openUntil == if after.failures == c.threshold then now + c.coolOff else before.openUntil
  {
    assert (events + [TimedOut(l, now)])[..|events|] == events;
    hide Run;
  }

  /**
   With the settings the code defaults to: the fourth timeout in a row opens nothing, and the next lookup pays
   again.
   */
  lemma OutageCostsMore(utf8: W.Utf8, l: Lookup)
    ensures var c, t := Settings(3, 30000, utf8), TimedOut(l, 0);
            var events := [t, t, t, TimedOut(l, 30000)];
            Streak(events) == 4 && !Open(Run(c, events), 30000)
  {
    var c, t, u := Settings(3, 30000, utf8), TimedOut(l, 0), TimedOut(l, 30000);
    assert [] + [t] == [t] && [t] + [t] == [t, t] && [t, t] + [t] == [t, t, t] && [t, t, t] + [u] == [t, t, t, u];
    assert Run(c, []) == START;
    hide Run, Streak, TimedOut;
    TimeoutCounts(c, [], l, 0);
    TimeoutCounts(c, [t], l, 0);
    TimeoutCounts(c, [t, t], l, 0);
    TimeoutCounts(c, [t, t, t], l, 30000);
    FailuresAreTheStreak(c, [t, t, t, u]);
  }

  /** Once the cool-off is over, nothing but a success followed by a new streak closes the resolver off again. */
  lemma {:induction false} StaysClosed(c: Settings, events: seq<Event>, more: seq<Event>, now: nat)
    requires c.Valid() && Monotone(events + more) && Streak(events) >= c.threshold
    requires forall i | 0 <= i < |more| :: !Succeeds(more[i])
    requires now >= events[TripOf(c, events)].now + c.coolOff
    ensures !Open(Run(c, events + more), now)
  {
    var all := events + more;
    StreakGrows(c, events, more);
    OpensOncePerStreak(c, all, now);
  }

  lemma {:induction false} StreakGrows(c: Settings, events: seq<Event>, more: seq<Event>)
    requires c.Valid() && Streak(events) >= c.threshold
    requires forall i | 0 <= i < |more| :: !Succeeds(more[i])
    ensures Streak(events + more) >= Streak(events)
    ensures TripOf(c, events + more) == TripOf(c, events)
    decreases |more|
  {
    if more == [] {
      assert events + more == events;
    } else {
      var n := |more| - 1;
      var all, before := events + more, more[..n];
      assert all[..|all| - 1] == events + before && all[|all| - 1] == more[n];
      StreakGrows(c, events, before);
      assert all[..|all| - 1 + 1] == all;
      assert !Trips(c, all, |all| - 1);
    }
  }

  // ----- what becomes of each lookup -----

  /**
   What the `i`th event has the resolver do, told from the events: while the breaker is tripped, or when the name
   cannot be encoded, a lookup is handed to the fallback, else it is asked; a reply with addresses answers its
   lookup with all of them, and every other reply hands it to the fallback.
   */
  ghost function ActAt(c: Settings, events: seq<Event>, i: nat): Act
    requires i < |events|
  {
    match events[i]
    case Asks(l, now) =>
      if Tripped(c, events[..i], now) || W.Query(c.utf8, l.host).None? then FellBack(l)
      else Requested(l, W.Query(c.utf8, l.host).value)
    case Replies(l, reply, _) =>
      if reply.Some? && W.DecodeAnswer(reply.value).Good? && W.DecodeAnswer(reply.value).addresses != []
      then Answered(l, W.DecodeAnswer(reply.value).addresses)
      else FellBack(l)
  }

  /** One act an event, in order. */
  lemma {:induction false} LogIsTold(c: Settings, events: seq<Event>)
    requires Monotone(events)
    ensures Tells(c, events, Run(c, events).log)
    decreases |events|
  {
    if events == [] {
      assert Run(c, events) == START;
    } else {
      var n := |events| - 1;
      var before, e := events[..n], events[n];
      assert Monotone(before);
      hide *;
      LogIsTold(c, before);
      if e.Asks? { OpenAfterATrip(c, before, e.now); }
      LastAct(c, events);
      OneMoreAct(c, events, Run(c, before).log);
    }
  }

  ghost predicate Tells(c: Settings, events: seq<Event>, log: seq<Act>) {
    |log| == |events| && forall i | 0 <= i < |events| :: log[i] == ActAt(c, events, i)
  }

  lemma OneMoreAct(c: Settings, events: seq<Event>, log: seq<Act>)
    requires events != [] && Tells(c, events[..|events| - 1], log)
    ensures Tells(c, events, log + [ActAt(c, events, |events| - 1)])
  {
    var n := |events| - 1;
    hide ActAt;
    forall i | 0 <= i < n
      ensures ActAt(c, events[..n], i) == ActAt(c, events, i)
    {
      EarlierAct(c, events, i, n);
    }
  }

  lemma EarlierAct(c: Settings, events: seq<Event>, i: nat, n: nat)
    requires i < n <= |events|
    ensures ActAt(c, events[..n], i) == ActAt(c, events, i)
  {
    assert events[..n][..i] == events[..i];
    hide Tripped, W.Query, W.DecodeAnswer;
  }

  lemma LastAct(c: Settings, events: seq<Event>)
    requires events != []
    requires var n := |events| - 1;
             events[n].Asks? ==> (Open(Run(c, events[..n]), events[n].now) <==> Tripped(c, events[..n], events[n].now))
    ensures var n := |events| - 1; Run(c, events).log == Run(c, events[..n]).log + [ActAt(c, events, n)]
  {
    hide Tripped, W.Query, W.DecodeAnswer;
  }

  /** Each reply is for a request that is out. */
  ghost predicate Honest(c: Settings, events: seq<Event>)
    decreases |events|
  {
    events != [] ==>
      var before, e := events[..|events| - 1], events[|events| - 1];
      Honest(c, before) && (e.Replies? ==> e.lookup in Run(c, before).waiting)
  }

  ghost function Asked(events: seq<Event>): multiset<Lookup>
    decreases |events|
  {
    if events == [] then multiset{} else
    var e := events[|events| - 1];
    Asked(events[..|events| - 1]) + if e.Asks? then multiset{e.lookup} else multiset{}
  }

  /** Lookups whose callback was called with addresses or handed to the fallback. */
  ghost function Ended(log: seq<Act>): multiset<Lookup>
    decreases |log|
  {
    if log == [] then multiset{} else
    var a := log[|log| - 1];
    Ended(log[..|log| - 1]) + if a.Requested? then multiset{} else multiset{a.lookup}
  }

  lemma EndedSnoc(log: seq<Act>, a: Act)
    ensures Ended(log + [a]) == Ended(log) + if a.Requested? then multiset{} else multiset{a.lookup}
  {
    assert (log + [a])[..|log|] == log;
  }

  /** No lookup is lost and none ends twice, breaker open or not: each is out, or answered once, or handed on once. */
  lemma {:induction false} EachLookupEndsOnce(c: Settings, events: seq<Event>)
    requires Honest(c, events)
    ensures var s := Run(c, events); Asked(events) == s.waiting + Ended(s.log)
    decreases |events|
  {
    if events == [] {
    } else {
      var before, e := events[..|events| - 1], events[|events| - 1];
      EachLookupEndsOnce(c, before);
      var s, t := Run(c, before), Run(c, events);
      StepLogs(c, s, e);
      EndedSnoc(s.log, t.log[|s.log|]);
      assert t.log == s.log + [t.log[|s.log|]];
      hide Verdict, W.Query;
    }
  }

  lemma StepLogs(c: Settings, s: State, e: Event)
    ensures var t := Step(c, s, e);
            && |t.log| == |s.log| + 1 && t.log == s.log + [t.log[|s.log|]] && t.log[|s.log|].lookup == e.lookup
            && (t.log[|s.log|].Requested? ==> t.waiting == s.waiting + multiset{e.lookup})
            && (e.Replies? ==> t.waiting == s.waiting - multiset{e.lookup} && !t.log[|s.log|].Requested?)
            && (e.Asks? && !t.log[|s.log|].Requested? ==> t.waiting == s.waiting)
  {
    hide Verdict, W.Query;
  }
}
