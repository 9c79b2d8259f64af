/** The address cache in front of the resolver, with coalescing of lookups in flight (src/node/dnscache.js). */
module DnsCache {
  import opened Options
  import opened Names

  datatype Result = EmptyHost | Address(address: string) | Unresolved

  /** A callback that has been called. */
  datatype Fired = Fired(host: string, cb: nat, result: Result)

  datatype Entry = Entry(address: string, expires: nat)

  datatype State = State(
    cache: map<string, Entry>, pending: map<string, seq<nat>>,
    /** Lookups handed to the resolver and not answered yet. */
    inFlight: multiset<string>,
    log: seq<Fired>)

  const START := State(map[], map[], multiset{}, [])

  predicate IsNumber(s: string) {
    s != "" && forall c <- s :: '0' <= c <= '9'
  }

  /** A dotted quad or anything with a colon: nothing to look up. */
  predicate IsLiteral(host: string) {
    (|Split(host, '.')| == 4 && forall p <- Split(host, '.') :: IsNumber(p)) || ':' in host
  }

  /** Four numbers with dots between them, or a colon somewhere. */
  lemma LiteralIff(host: string)
    ensures IsLiteral(host) <==>
            ':' in host || exists a, b, c, d :: IsNumber(a) && IsNumber(b) && IsNumber(c) && IsNumber(d)
                                                && host == a + "." + b + "." + c + "." + d
  {
    var parts := Split(host, '.');
    if |parts| == 4 && forall p <- parts :: IsNumber(p) {
      var a, b, c, d := parts[0], parts[1], parts[2], parts[3];
      assert parts == [a, b, c, d] && IsNumber(a) && IsNumber(b) && IsNumber(c) && IsNumber(d);
      JoinFour(a, b, c, d);
      assert host == a + "." + b + "." + c + "." + d;
    }
    forall a, b, c, d | IsNumber(a) && IsNumber(b) && IsNumber(c) && IsNumber(d)
      && host == a + "." + b + "." + c + "." + d
      ensures IsLiteral(host)
    {
      FourAreLiteral(a, b, c, d);
    }
    hide IsNumber, Split;
  }

  lemma FourAreLiteral(a: string, b: string, c: string, d: string)
    requires IsNumber(a) && IsNumber(b) && IsNumber(c) && IsNumber(d)
    ensures IsLiteral(a + "." + b + "." + c + "." + d)
  {
    var parts := [a, b, c, d];
    JoinFour(a, b, c, d);
    assert forall p <- parts :: IsNumber(p) && '.' !in p;
    hide Split, Join, IsNumber;
    SplitJoin(parts, '.');
  }

  lemma JoinFour(a: string, b: string, c: string, d: string)
    ensures Join([a, b, c, d], ['.']) == a + "." + b + "." + c + "." + d
  {
    var cd, bcd := [c, d], [b, c, d];
    assert Join([d], ['.']) == d && cd[1..] == [d] && Join(cd, ['.']) == c + "." + d;
    assert bcd[1..] == cd && Join(bcd, ['.']) == b + "." + (c + "." + d);
    assert [a, b, c, d][1..] == bcd;
  }

  function FireAll(host: string, queue: seq<nat>, result: Result): (r: seq<Fired>)
    ensures |r| == |queue|
  {
    seq(|queue|, i requires 0 <= i < |queue| => Fired(host, queue[i], result))
  }

  function Hit(s: State, host: string, now: nat): Option<string> {
    if host in s.cache && now / 1000 < s.cache[host].expires then Some(s.cache[host].address) else None
  }

  function Resolve(s: State, host: string, cb: nat, now: nat): State {
    if host == "" then s.(log := s.log + [Fired(host, cb, EmptyHost)])
    else if IsLiteral(host) then s.(log := s.log + [Fired(host, cb, Address(host))])
    else if Hit(s, host, now).Some? then s.(log := s.log + [Fired(host, cb, Address(Hit(s, host, now).value))])
    else if host in s.pending then s.(pending := s.pending[host := s.pending[host] + [cb]])
    else s.(pending := s.pending[host := [cb]], inFlight := s.inFlight + multiset{host})
  }

  /** The resolver answers one lookup, with an address or with none. */
  function Answer(ttl: nat, s: State, host: string, address: Option<string>, now: nat): State {
    var queue := if host in s.pending then s.pending[host] else [];
    var t := s.(pending := s.pending - {host}, inFlight := s.inFlight - multiset{host});
    match address
    case Some(a) =>
      t.(cache := t.cache[host := Entry(a, now / 1000 + ttl)], log := t.log + FireAll(host, queue, Address(a)))
    case None => t.(log := t.log + FireAll(host, queue, Unresolved))
  }

  function Sweep(s: State, now: nat): State {
    s.(cache := map h | h in s.cache && now / 1000 < s.cache[h].expires :: s.cache[h])
  }

  datatype Event =
    | Asks(host: string, cb: nat, now: nat)
    | Answers(host: string, address: Option<string>, now: nat)
    | Sweeps(now: nat)

  function Step(ttl: nat, s: State, e: Event): State {
    match e
    case Asks(host, cb, now) => Resolve(s, host, cb, now)
    case Answers(host, address, now) => Answer(ttl, s, host, address, now)
    case Sweeps(now) => Sweep(s, now)
  }

  function Run(ttl: nat, events: seq<Event>): State
    decreases |events|
  {
    if events == [] then START else Step(ttl, Run(ttl, events[..|events| - 1]), events[|events| - 1])
  }

  // ----- the object -----

  class Cache {
    const ttl: nat
    var cache: map<string, Entry>
    var pending: map<string, seq<nat>>
    var inFlight: multiset<string>
    var log: seq<Fired>

    ghost function View(): State
      reads this
    {
      State(cache, pending, inFlight, log)
    }

    constructor (ttl: nat)
      ensures this.ttl == ttl && View() == START
    {
      this.ttl := ttl;
      cache, pending, inFlight, log := map[], map[], multiset{}, [];
    }

    method Call(host: string, cb: nat, result: Result)
      modifies `log
      ensures log == old(log) + [Fired(host, cb, result)]
    {
      log := log + [Fired(host, cb, result)];
    }

    method OnResolve(host: string, cb: nat, now: nat)
      modifies this
      ensures View() == Resolve(old(View()), host, cb, now)
    {
      if host == "" {
        Call(host, cb, EmptyHost);
        return;
      }
      if IsLiteral(host) {
        Call(host, cb, Address(host));
        return;
      }
      if host in cache && now / 1000 < cache[host].expires {
        Call(host, cb, Address(cache[host].address));
        return;
      }
      if host in pending {
        pending := pending[host := pending[host] + [cb]];
        return;
      }
      pending := pending[host := [cb]];
      inFlight := inFlight + multiset{host};
    }

    /** Flush everyone who is waiting for this host, in the order they asked. */
    method OnAnswer(host: string, address: Option<string>, now: nat)
      modifies this
      ensures View() == Answer(ttl, old(View()), host, address, now)
    {
      var queue := if host in pending then pending[host] else [];
      pending := pending - {host};
      inFlight := inFlight - multiset{host};
      var result := Unresolved;
      if address.Some? {
        cache := cache[host := Entry(address.value, now / 1000 + ttl)];
        result := Address(address.value);
      }
      Flush(host, queue, result);
    }

    method Flush(host: string, queue: seq<nat>, result: Result)
      modifies `log
      ensures log == old(log) + FireAll(host, queue, result)
    {
      var i := 0;
      while i < |queue|
        invariant 0 <= i <= |queue| && log == old(log) + FireAll(host, queue, result)[..i]
      {
        Call(host, queue[i], result);
        i := i + 1;
      }
      assert FireAll(host, queue, result)[..|queue|] == FireAll(host, queue, result);
    }

    method OnSweep(now: nat)
      modifies `cache
      ensures View() == Sweep(old(View()), now)
    {
      var todo := cache.Keys;
      while todo != {}
        invariant todo <= old(cache).Keys
        invariant cache == map h | h in old(cache) && (h in todo || now / 1000 < old(cache)[h].expires) :: old(cache)[h]
      {
        var host :| host in todo;
        if now / 1000 >= cache[host].expires { cache := cache - {host}; }
        todo := todo - {host};
      }
    }
  }

  // ----- runs -----

  ghost predicate Monotone(events: seq<Event>) {
    forall i, j | 0 <= i <= j < |events| :: events[i].now <= events[j].now
  }

  /** The resolver answers each lookup once: an answer is for a lookup in flight. */
  ghost predicate Honest(ttl: nat, events: seq<Event>)
    decreases |events|
  {
    events != [] ==>
      var before, e := events[..|events| - 1], events[|events| - 1];
      Honest(ttl, before) && (e.Answers? ==> e.host in Run(ttl, before).inFlight)
  }

  ghost function LastTime(events: seq<Event>): nat {
    if events == [] then 0 else events[|events| - 1].now
  }

  // ----- what callers are told, from the events alone -----

  function About(e: Event): Option<string> {
    match e
    case Asks(host, _, _) => Some(host)
    case Answers(host, _, _) => Some(host)
    case Sweeps(_) => None
  }

  /** The latest successful answer for a host, and when it came. */
  ghost function LastAnswer(events: seq<Event>, host: string): Option<(string, nat)>
    decreases |events|
  {
    if events == [] then None else
    var e := events[|events| - 1];
    if e.Answers? && e.host == host && e.address.Some? then Some((e.address.value, e.now))
    else LastAnswer(events[..|events| - 1], host)
  }

  /** What a caller is told on the spot, if anything: the error, the literal, or the latest answer within its TTL. */
  ghost function AtOnce(ttl: nat, before: seq<Event>, host: string, now: nat): Option<Result> {
    if host == "" then Some(EmptyHost)
    else if IsLiteral(host) then Some(Address(host))
    else match LastAnswer(before, host)
      case None => None
      case Some((address, at)) => if now / 1000 < at / 1000 + ttl then Some(Address(address)) else None
  }

  /** Who waits for a host: those who were not told on the spot, until an answer for it comes. */
  ghost function Queue(ttl: nat, events: seq<Event>, host: string): seq<nat>
    decreases |events|, 1
  {
    if events == [] then [] else QueueNow(ttl, events[..|events| - 1], events[|events| - 1], host)
  }

  ghost function QueueNow(ttl: nat, before: seq<Event>, e: Event, host: string): seq<nat>
    decreases |before| + 1, 0
  {
    if About(e) != Some(host) then Queue(ttl, before, host)
    else if e.Answers? then []
    else if AtOnce(ttl, before, host, e.now).None? then Queue(ttl, before, host) + [e.cb]
    else Queue(ttl, before, host)
  }

  /** The callbacks of a host with what each was told, in order. */
  ghost function Told(ttl: nat, events: seq<Event>, host: string): seq<(nat, Result)>
    decreases |events|
  {
    if events == [] then [] else
    var before, e := events[..|events| - 1], events[|events| - 1];
    Told(ttl, before, host) + TellsNow(ttl, before, e, host)
  }

  /** What one event has callers of a host told: an answer is for all who wait, an address or the failure. */
  ghost function TellsNow(ttl: nat, before: seq<Event>, e: Event, host: string): seq<(nat, Result)> {
    if About(e) != Some(host) then []
    else if e.Answers? then
      TellAll(Queue(ttl, before, host), match e.address case Some(a) => Address(a) case None => Unresolved)
    else if AtOnce(ttl, before, host, e.now).Some? then [(e.cb, AtOnce(ttl, before, host, e.now).value)]
    else []
  }

  ghost function TellAll(queue: seq<nat>, result: Result): seq<(nat, Result)> {
    seq(|queue|, i requires 0 <= i < |queue| => (queue[i], result))
  }

  // ----- what the cache does -----

  /** The log, as far as it is about a host. */
  ghost function LogOf(log: seq<Fired>, host: string): seq<(nat, Result)>
    decreases |log|
  {
    if log == [] then [] else
    var f := log[|log| - 1];
    LogOf(log[..|log| - 1], host) + if f.host == host then [(f.cb, f.result)] else []
  }

  ghost function Waiting(s: State, host: string): seq<nat> {
    if host in s.pending then s.pending[host] else []
  }

  lemma {:induction false} LogAppend(a: seq<Fired>, b: seq<Fired>, host: string)
    ensures LogOf(a + b, host) == LogOf(a, host) + LogOf(b, host)
    decreases |b|
  {
    if b == [] {
      assert a + b == a;
    } else {
      assert (a + b)[..|a + b| - 1] == a + b[..|b| - 1];
      LogAppend(a, b[..|b| - 1], host);
    }
  }

  lemma LogSnoc(log: seq<Fired>, f: Fired, host: string)
    ensures LogOf(log + [f], host) == LogOf(log, host) + if f.host == host then [(f.cb, f.result)] else []
  {
    assert (log + [f])[..|log|] == log;
  }

  lemma {:induction false} LogFireAll(host: string, queue: seq<nat>, result: Result, other: string)
    ensures LogOf(FireAll(host, queue, result), other) == if other == host then TellAll(queue, result) else []
    decreases |queue|
  {
    if queue == [] {
    } else {
      var n := |queue| - 1;
      TellSnoc(host, queue, result);
      hide FireAll, LogOf, TellAll;
      LogFireAll(host, queue[..n], result, other);
      LogSnoc(FireAll(host, queue[..n], result), Fired(host, queue[n], result), other);
    }
  }

  lemma TellSnoc(host: string, queue: seq<nat>, result: Result)
    requires queue != []
    ensures var n := |queue| - 1;
            && FireAll(host, queue, result) == FireAll(host, queue[..n], result) + [Fired(host, queue[n], result)]
            && TellAll(queue, result) == TellAll(queue[..n], result) + [(queue[n], result)]
  {
  }

  /** What one host's slot of the cache, queue, flight and log means for the run so far. */
  ghost predicate Faithful(ttl: nat, s: State, events: seq<Event>, host: string, now: nat) {
    && s.inFlight[host] == (if host in s.pending then 1 else 0)
    && LogOf(s.log, host) == Told(ttl, events, host) && Waiting(s, host) == Queue(ttl, events, host)
    && (host in s.pending ==> Hit(s, host, now).None?)
    && (match LastAnswer(events, host)
        case None => host !in s.cache
        case Some((address, at)) =>
          if host in s.cache then s.cache[host] == Entry(address, at / 1000 + ttl)
          else at / 1000 + ttl <= now / 1000)
  }

  lemma LaterFaithful(ttl: nat, s: State, events: seq<Event>, host: string, t: nat, now: nat)
    requires Faithful(ttl, s, events, host, t) && t <= now
    ensures Faithful(ttl, s, events, host, now)
  {
    assert t / 1000 <= now / 1000;
    hide LogOf, Told, Queue, LastAnswer;
  }

  /** One more event. */
  lemma Snoc(ttl: nat, events: seq<Event>, e: Event, host: string)
    ensures Told(ttl, events + [e], host) == Told(ttl, events, host) + TellsNow(ttl, events, e, host)
    ensures Queue(ttl, events + [e], host) == QueueNow(ttl, events, e, host)
    ensures LastAnswer(events + [e], host) ==
            if e.Answers? && e.host == host && e.address.Some? then Some((e.address.value, e.now))
            else LastAnswer(events, host)
  {
    assert (events + [e])[..|events|] == events;
    hide TellsNow, AtOnce;
  }

  /** The cache hits exactly while the latest successful answer is within its TTL. */
  lemma HitIsFresh(ttl: nat, s: State, events: seq<Event>, host: string, now: nat)
    requires Faithful(ttl, s, events, host, now)
    ensures Hit(s, host, now) ==
            match LastAnswer(events, host)
            case None => None
            case Some((address, at)) => if now / 1000 < at / 1000 + ttl then Some(address) else None
  {
    hide LogOf, Told, Queue, LastAnswer;
  }

  lemma AskFaithful(ttl: nat, s: State, events: seq<Event>, e: Event)
    requires e.Asks? && Faithful(ttl, s, events, e.host, e.now)
    requires e.host == "" || IsLiteral(e.host) ==> e.host !in s.pending
    ensures Faithful(ttl, Step(ttl, s, e), events + [e], e.host, e.now)
  {
    hide IsLiteral, LogOf, Told, Queue, LastAnswer;
    var host := e.host;
    HitIsFresh(ttl, s, events, host, e.now);
    Snoc(ttl, events, e, host);
    AskSteps(ttl, s, e, AtOnce(ttl, events, host, e.now));
    hide Hit, AtOnce, Step;
    if AtOnce(ttl, events, host, e.now).Some? {
      LogSnoc(s.log, Fired(host, e.cb, AtOnce(ttl, events, host, e.now).value), host);
    } else {
      assert Told(ttl, events, host) + [] == Told(ttl, events, host);
    }
  }

  /** A caller is told on the spot, or joins those who wait. */
  lemma AskSteps(ttl: nat, s: State, e: Event, now: Option<Result>)
    requires e.Asks?
    requires now == if e.host == "" then Some(EmptyHost) else if IsLiteral(e.host) then Some(Address(e.host))
                    else if Hit(s, e.host, e.now).Some? then Some(Address(Hit(s, e.host, e.now).value)) else None
    ensures now.Some? ==> Step(ttl, s, e) == s.(log := s.log + [Fired(e.host, e.cb, now.value)])
    ensures now.None? ==>
              && Step(ttl, s, e).cache == s.cache && Step(ttl, s, e).log == s.log && e.host in Step(ttl, s, e).pending
              && Waiting(Step(ttl, s, e), e.host) == Waiting(s, e.host) + [e.cb]
              && Step(ttl, s, e).inFlight == if e.host in s.pending then s.inFlight else s.inFlight + multiset{e.host}
  {
    hide IsLiteral;
  }

  lemma AnswerFaithful(ttl: nat, s: State, events: seq<Event>, e: Event)
    requires e.Answers? && Faithful(ttl, s, events, e.host, e.now) && e.host in s.inFlight
    ensures Faithful(ttl, Step(ttl, s, e), events + [e], e.host, e.now)
  {
    hide LogOf, Told, Queue, LastAnswer, FireAll, TellAll;
    var queue := Waiting(s, e.host);
    var result := match e.address case Some(a) => Address(a) case None => Unresolved;
    Snoc(ttl, events, e, e.host);
    LogAppend(s.log, FireAll(e.host, queue, result), e.host);
    LogFireAll(e.host, queue, result, e.host);
  }

  /** An event about another host, or none. */
  lemma OtherFaithful(ttl: nat, s: State, events: seq<Event>, e: Event, host: string)
    requires About(e) != Some(host) && Faithful(ttl, s, events, host, e.now)
    ensures Faithful(ttl, Step(ttl, s, e), events + [e], host, e.now)
  {
    Snoc(ttl, events, e, host);
    hide IsLiteral, LogOf, Told, Queue, LastAnswer, FireAll;
    assert Told(ttl, events, host) + [] == Told(ttl, events, host);
    match e
    case Asks(other, cb, now) => OtherLog(s.log, other, cb, host);
    case Answers(other, address, now) =>
      var queue := Waiting(s, other);
      var result := match address case Some(a) => Address(a) case None => Unresolved;
      LogAppend(s.log, FireAll(other, queue, result), host);
      LogFireAll(other, queue, result, host);
      assert LogOf(s.log, host) + [] == LogOf(s.log, host);
    case Sweeps(_) =>
  }

  lemma OtherLog(log: seq<Fired>, other: string, cb: nat, host: string)
    requires other != host
    ensures forall result :: LogOf(log + [Fired(other, cb, result)], host) == LogOf(log, host)
  {
    forall result
      ensures LogOf(log + [Fired(other, cb, result)], host) == LogOf(log, host)
    {
      LogSnoc(log, Fired(other, cb, result), host);
      assert LogOf(log, host) + [] == LogOf(log, host);
    }
  }

  /** Only names that need a lookup are ever waited for. */
  lemma {:induction false} WaitedForIsName(ttl: nat, events: seq<Event>, host: string)
    ensures host in Run(ttl, events).pending ==> host != "" && !IsLiteral(host)
    decreases |events|
  {
    if events == [] {
    } else {
      WaitedForIsName(ttl, events[..|events| - 1], host);
      StepWaits(ttl, Run(ttl, events[..|events| - 1]), events[|events| - 1], host);
      hide IsLiteral, Step;
    }
  }

  lemma StepWaits(ttl: nat, s: State, e: Event, host: string)
    requires host in s.pending ==> host != "" && !IsLiteral(host)
    ensures host in Step(ttl, s, e).pending ==> host != "" && !IsLiteral(host)
  {
    hide IsLiteral, FireAll;
  }

  lemma {:induction false} RunFaithful(ttl: nat, events: seq<Event>, host: string, now: nat)
    requires Monotone(events) && Honest(ttl, events) && LastTime(events) <= now
    ensures Faithful(ttl, Run(ttl, events), events, host, now)
    decreases |events|
  {
    if events == [] {
      assert Run(ttl, events) == START;
    } else {
      var before, e := events[..|events| - 1], events[|events| - 1];
      var s := Run(ttl, before);
      assert events == before + [e] && Run(ttl, events) == Step(ttl, s, e);
      assert About(e) == Some(host) ==> e.host == host && (e.Asks? || e.Answers?);
      hide *;
      BeforeLast(ttl, events);
      RunFaithful(ttl, before, host, e.now);
      WaitedForIsName(ttl, before, host);
      if About(e) != Some(host) { OtherFaithful(ttl, s, before, e, host); }
      else if e.Asks? { AskFaithful(ttl, s, before, e); }
      else { AnswerFaithful(ttl, s, before, e); }
      LaterFaithful(ttl, Run(ttl, events), events, host, e.now, now);
    }
  }

  lemma BeforeLast(ttl: nat, events: seq<Event>)
    requires events != [] && Monotone(events) && Honest(ttl, events)
    ensures var before, e := events[..|events| - 1], events[|events| - 1];
            && Monotone(before) && Honest(ttl, before) && LastTime(before) <= e.now == LastTime(events)
            && (e.Answers? ==> e.host in Run(ttl, before).inFlight)
  {
    hide Run;
  }

  /**
   At any point of any run on a clock that never goes back, the callbacks of a host have been told exactly
   what the events say, in order, and those still waiting are the ones the events say; one lookup is in flight
   if someone waits, else none.
   */
  lemma CallersAreTold(ttl: nat, events: seq<Event>, host: string)
    requires Monotone(events) && Honest(ttl, events)
    ensures var s := Run(ttl, events);
            && LogOf(s.log, host) == Told(ttl, events, host) && Waiting(s, host) == Queue(ttl, events, host)
            && s.inFlight[host] == (if host in s.pending then 1 else 0)
  {
    RunFaithful(ttl, events, host, LastTime(events));
  }

  ghost function Callbacks(told: seq<(nat, Result)>): seq<nat> {
    seq(|told|, i requires 0 <= i < |told| => told[i].0)
  }

  /** Callers of a host in the order they asked. */
  ghost function Askers(events: seq<Event>, host: string): seq<nat>
    decreases |events|
  {
    if events == [] then [] else
    var e := events[|events| - 1];
    Askers(events[..|events| - 1], host) + if e.Asks? && e.host == host then [e.cb] else []
  }

  /** Nobody is told on the spot while others wait. */
  lemma NobodyOvertakes(ttl: nat, before: seq<Event>, host: string, now: nat)
    requires Monotone(before) && Honest(ttl, before) && LastTime(before) <= now
    ensures AtOnce(ttl, before, host, now).Some? ==> Queue(ttl, before, host) == []
  {
    RunFaithful(ttl, before, host, now);
    WaitedForIsName(ttl, before, host);
    HitIsFresh(ttl, Run(ttl, before), before, host, now);
    hide Run, Queue, LogOf, Told, LastAnswer, IsLiteral, Hit;
  }

  /** Nobody is told, all who wait are, one is told while nobody waits, or one joins the others. */
  ghost predicate InTurn(queue: seq<nat>, tells: seq<nat>, left: seq<nat>, asked: seq<nat>) {
    || (tells == [] && left == queue && asked == [])
    || (tells == queue && left == [] && asked == [])
    || (queue == [] && left == [] && tells == asked)
    || (tells == [] && left == queue + asked)
  }

  lemma OrderStays(told: seq<nat>, queue: seq<nat>, tells: seq<nat>, left: seq<nat>, asked: seq<nat>)
    requires InTurn(queue, tells, left, asked)
    ensures told + tells + left == told + queue + asked
  {
  }

  ghost function Asked(e: Event, host: string): seq<nat> {
    if e.Asks? && e.host == host then [e.cb] else []
  }

  lemma StepInTurn(ttl: nat, before: seq<Event>, e: Event, host: string)
    requires AtOnce(ttl, before, host, e.now).Some? ==> Queue(ttl, before, host) == []
    ensures InTurn(Queue(ttl, before, host), Callbacks(TellsNow(ttl, before, e, host)),
                   Queue(ttl, before + [e], host), Asked(e, host))
  {
    Snoc(ttl, before, e, host);
    hide AtOnce, Queue;
  }

  /** So the callbacks called, then those waiting, are the callers in the order they asked, each once. */
  lemma {:induction false} EachCallerOnce(ttl: nat, events: seq<Event>, host: string)
    requires Monotone(events) && Honest(ttl, events)
    ensures Callbacks(Told(ttl, events, host)) + Queue(ttl, events, host) == Askers(events, host)
    decreases |events|
  {
    if events == [] {
      assert Told(ttl, events, host) == [] && Queue(ttl, events, host) == [];
    } else {
      var before, e := events[..|events| - 1], events[|events| - 1];
      hide *;
      assert events == before + [e];
      AskersLast(events, host);
      BeforeLast(ttl, events);
      EachCallerOnce(ttl, before, host);
      NobodyOvertakes(ttl, before, host, e.now);
      StepInTurn(ttl, before, e, host);
      Snoc(ttl, before, e, host);
      OneMore(Told(ttl, before, host), TellsNow(ttl, before, e, host));
      OrderStays(Callbacks(Told(ttl, before, host)), Queue(ttl, before, host),
                 Callbacks(TellsNow(ttl, before, e, host)), Queue(ttl, events, host), Asked(e, host));
    }
  }

  lemma AskersLast(events: seq<Event>, host: string)
    requires events != []
    ensures Askers(events, host) == Askers(events[..|events| - 1], host) + Asked(events[|events| - 1], host)
  {
  }

  lemma OneMore(a: seq<(nat, Result)>, b: seq<(nat, Result)>)
    ensures Callbacks(a + b) == Callbacks(a) + Callbacks(b)
  {
  }

  /**
   A caller is answered from the cache exactly while the latest successful answer is within its TTL, with that
   answer.
   */
  lemma HitsAreFresh(ttl: nat, events: seq<Event>, host: string, now: nat)
    requires Monotone(events) && Honest(ttl, events) && LastTime(events) <= now
    ensures Hit(Run(ttl, events), host, now) ==
            match LastAnswer(events, host)
            case None => None
            case Some((address, at)) => if now / 1000 < at / 1000 + ttl then Some(address) else None
  {
    RunFaithful(ttl, events, host, now);
  }

  // ----- sweeping -----

  /** The same run with the sweeps left out. */
  ghost function Unswept(events: seq<Event>): seq<Event>
    decreases |events|
  {
    if events == [] then [] else
    var e := events[|events| - 1];
    Unswept(events[..|events| - 1]) + if e.Sweeps? then [] else [e]
  }

  /** `t` may hold entries that `s` has dropped, all of them expired. */
  ghost predicate Agrees(s: State, t: State, now: nat) {
    && (s.pending, s.inFlight, s.log) == (t.pending, t.inFlight, t.log)
    && forall h :: (h in s.cache ==> h in t.cache && s.cache[h] == t.cache[h])
                && (h in t.cache && h !in s.cache ==> t.cache[h].expires <= now / 1000)
  }

  lemma AskAgrees(s: State, t: State, host: string, cb: nat, t0: nat, now: nat)
    requires Agrees(s, t, t0) && t0 <= now
    ensures Agrees(Resolve(s, host, cb, now), Resolve(t, host, cb, now), now)
  {
    assert t0 / 1000 <= now / 1000;
    assert Hit(s, host, now) == Hit(t, host, now);
    hide IsLiteral, Hit;
  }

  lemma AnswerAgrees(ttl: nat, s: State, t: State, host: string, address: Option<string>, t0: nat, now: nat)
    requires Agrees(s, t, t0) && t0 <= now
    ensures Agrees(Answer(ttl, s, host, address, now), Answer(ttl, t, host, address, now), now)
  {
    assert t0 / 1000 <= now / 1000;
    hide FireAll;
  }

  lemma SweepAgrees(s: State, t: State, t0: nat, now: nat)
    requires Agrees(s, t, t0) && t0 <= now
    ensures Agrees(Sweep(s, now), t, now)
  {
    assert t0 / 1000 <= now / 1000;
  }

  lemma StepAgrees(ttl: nat, s: State, t: State, e: Event, now: nat)
    requires Agrees(s, t, now) && now <= e.now
    ensures Agrees(Step(ttl, s, e), if e.Sweeps? then t else Step(ttl, t, e), e.now)
  {
    hide Agrees, Resolve, Answer, Sweep;
    match e
    case Asks(host, cb, _) => AskAgrees(s, t, host, cb, now, e.now);
    case Answers(host, address, _) => AnswerAgrees(ttl, s, t, host, address, now, e.now);
    case Sweeps(_) => SweepAgrees(s, t, now, e.now);
  }

  /** The expiry sweep cannot be observed: callbacks, queues and lookups are those of a run without it. */
  lemma {:induction false} SweepIsInvisible(ttl: nat, events: seq<Event>)
    requires Monotone(events)
    ensures Agrees(Run(ttl, events), Run(ttl, Unswept(events)), LastTime(events))
    decreases |events|
  {
    if events == [] {
    } else {
      var n := |events| - 1;
      var before, e := events[..n], events[n];
      assert n > 0 ==> events[n - 1].now <= e.now;
      SweepIsInvisible(ttl, before);
      StepAgrees(ttl, Run(ttl, before), Run(ttl, Unswept(before)), e, LastTime(before));
      hide Agrees, Step;
      assert Unswept(before) + [] == Unswept(before);
      assert (Unswept(before) + [e])[..|Unswept(before)|] == Unswept(before);
    }
  }
}
