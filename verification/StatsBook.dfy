/** Traffic and connection accounting for the dashboard (src/node/stats.js). */
module StatsBook {
  import opened FiniteSets
  import opened Options
  import opened Names

  const MAX_HISTORY := 100
  const HISTORY_SHOWN := 20
  const USERS_SHOWN := 50

  datatype Proto = Tcp | Udp | Other

  /** A connection's record; callers hold it by its number, counted from 0 in the order of opening. */
  datatype Info = Info(name: string, active: bool, startTime: nat, endTime: nat, streams: nat, lastHost: string,
                       lastProto: Proto, tx: nat, rx: nat)

  datatype Stream = Stream(proto: Proto, ended: bool, startTime: nat, tx: nat, rx: nat)

  datatype Row = Row(active: int, total: int, streams: int, tx: int, rx: int) {
    function Plus(r: Row): Row {
      Row(active + r.active, total + r.total, streams + r.streams, tx + r.tx, rx + r.rx)
    }
  }

  const BLANK := Row(0, 0, 0, 0, 0)

  datatype Totals = Totals(
    totalConnections: int, activeConnections: int, totalStreams: int, activeStreams: int,
    tx: int, rx: int, tcpStreams: int, udpStreams: int, muxSessions: int)

  datatype State = State(
    infos: seq<Info>, streams: seq<Stream>,
    /** Open connections in the order of opening, and closed ones in the order of closing. */
    connections: seq<nat>, history: seq<nat>,
    rows: map<string, Row>, totals: Totals)

  function Start(labels: seq<string>): State {
    State([], [], [], [], map name | name in labels :: BLANK, Totals(0, 0, 0, 0, 0, 0, 0, 0, 0))
  }

  function Drop(s: seq<nat>, h: nat): seq<nat> {
    if s == [] then [] else Drop(s[..|s| - 1], h) + if s[|s| - 1] == h then [] else [s[|s| - 1]]
  }

  /** The last `n` elements, or all of them. */
  function Latest(s: seq<nat>, n: nat): seq<nat> {
    if |s| <= n then s else s[|s| - n..]
  }

  predicate Knows(s: State, h: Option<nat>) {
    h.Some? && h.value < |s.infos|
  }

  function AddToRow(rows: map<string, Row>, name: string, r: Row): map<string, Row> {
    if name in rows then rows[name := rows[name].Plus(r)] else rows
  }

  /** A row for a label not seen before, unless there are too many. */
  function WithRow(rows: map<string, Row>, name: string): map<string, Row> {
    if name in rows || |rows| > 128 then rows else rows[name := BLANK]
  }

  function OpenConnection(s: State, name: string, now: nat): State {
    s.(infos := s.infos + [Info(name, true, now, 0, 0, "", Tcp, 0, 0)],
       connections := s.connections + [|s.infos|],
       rows := AddToRow(WithRow(s.rows, name), name, Row(1, 1, 0, 0, 0)),
       totals := s.totals.(totalConnections := s.totals.totalConnections + 1,
           activeConnections := s.totals.activeConnections + 1))
  }

  function CloseConnection(s: State, h: Option<nat>, now: nat): State {
    if !Knows(s, h) || !s.infos[h.value].active then s else
    var info := s.infos[h.value];
    s.(infos := s.infos[h.value := info.(active := false, endTime := now)],
       connections := Drop(s.connections, h.value),
       history := Latest(s.history + [h.value], MAX_HISTORY),
       rows := if info.name in s.rows && s.rows[info.name].active > 0
         then AddToRow(s.rows, info.name, Row(-1, 0, 0, 0, 0)) else s.rows,
       totals := s.totals.(activeConnections := s.totals.activeConnections - 1))
  }

  /** The gauges by protocol; a stream that is neither TCP nor UDP is on none of them. */
  function Gauge(t: Totals, proto: Proto, delta: int): Totals {
    match proto
    case Tcp => t.(tcpStreams := t.tcpStreams + delta)
    case Udp => t.(udpStreams := t.udpStreams + delta)
    case Other => t
  }

  function StartStream(s: State, h: Option<nat>, proto: Proto, host: string, port: nat, now: nat): State {
    var t := Gauge(s.totals.(totalStreams := s.totals.totalStreams + 1, activeStreams := s.totals.activeStreams + 1),
        proto, 1);
    var u := s.(streams := s.streams + [Stream(proto, false, now, 0, 0)], totals := t);
    if !Knows(s, h) then u else
    var info := s.infos[h.value];
    u.(infos := s.infos[h.value := info.(streams := info.streams + 1, lastHost := host + ":" + Numeral(port, 10),
        lastProto := proto)],
       rows := AddToRow(s.rows, info.name, Row(0, 0, 1, 0, 0)))
  }

  function EndStream(s: State, r: Option<nat>): State {
    if r.None? || r.value >= |s.streams| || s.streams[r.value].ended then s else
    var stream := s.streams[r.value];
    s.(streams := s.streams[r.value := stream.(ended := true)],
       totals := Gauge(s.totals.(activeStreams := s.totals.activeStreams - 1), stream.proto, -1))
  }

  function Add(s: State, h: Option<nat>, r: Option<nat>, tx: nat, rx: nat): State {
    var streams :=
      if r.None? || r.value >= |s.streams| then s.streams
      else s.streams[r.value := s.streams[r.value].(tx := s.streams[r.value].tx + tx,
          rx := s.streams[r.value].rx + rx)];
    var u := s.(streams := streams, totals := s.totals.(tx := s.totals.tx + tx, rx := s.totals.rx + rx));
    if !Knows(s, h) then u else
    var info := s.infos[h.value];
    u.(infos := s.infos[h.value := info.(tx := info.tx + tx, rx := info.rx + rx)],
       rows := AddToRow(s.rows, info.name, Row(0, 0, 0, tx, rx)))
  }

  datatype Call =
    | Opens(name: string, now: nat)
    | Closes(h: Option<nat>, now: nat)
    | Starts(h: Option<nat>, proto: Proto, host: string, port: nat, now: nat)
    | Ends(r: Option<nat>)
    | AddsTx(h: Option<nat>, r: Option<nat>, n: nat)
    | AddsRx(h: Option<nat>, r: Option<nat>, n: nat)
    | NotesMux

  function Step(s: State, c: Call): State {
    match c
    case Opens(name, now) => OpenConnection(s, name, now)
    case Closes(h, now) => CloseConnection(s, h, now)
    case Starts(h, proto, host, port, now) => StartStream(s, h, proto, host, port, now)
    case Ends(r) => EndStream(s, r)
    case AddsTx(h, r, n) => Add(s, h, r, n, 0)
    case AddsRx(h, r, n) => Add(s, h, r, 0, n)
    case NotesMux => s.(totals := s.totals.(muxSessions := s.totals.muxSessions + 1))
  }

  function Run(labels: seq<string>, calls: seq<Call>): State
    decreases |calls|
  {
    if calls == [] then Start(labels) else Step(Run(labels, calls[..|calls| - 1]), calls[|calls| - 1])
  }

  // ----- counting from the records -----

  /** What one connection adds to the row of `name`, or to the whole. */
  function Share(info: Info, name: Option<string>): Row {
    if name.Some? && name.value != info.name then BLANK
    else Row(if info.active then 1 else 0, 1, info.streams, info.tx, info.rx)
  }

  function Sum(infos: seq<Info>, name: Option<string>): Row
    decreases |infos|
  {
    if infos == [] then BLANK else Sum(infos[..|infos| - 1], name).Plus(Share(infos[|infos| - 1], name))
  }

  function OpenOnes(infos: seq<Info>): seq<nat>
    decreases |infos|
  {
    if infos == [] then [] else
    var n := |infos| - 1;
    OpenOnes(infos[..n]) + if infos[n].active then [n] else []
  }

  /** Streams not ended, of one protocol or of any. */
  function Running(streams: seq<Stream>, proto: Option<Proto>): nat
    decreases |streams|
  {
    if streams == [] then 0 else
    var n := |streams| - 1;
    Running(streams[..n], proto) + if !streams[n].ended && (proto.None? || proto.value == streams[n].proto) then 1
      else 0
  }

  ghost predicate Counted(s: State) {
    && s.connections == OpenOnes(s.infos)
    && s.totals.totalConnections == |s.infos|
    && s.totals.activeConnections == |s.connections|
    && s.totals.totalStreams == |s.streams|
    && s.totals.activeStreams == Running(s.streams, None)
    && s.totals.tcpStreams == Running(s.streams, Some(Tcp))
    && s.totals.udpStreams == Running(s.streams, Some(Udp))
  }

  /** The row of a label sums up its connections; only a full book leaves a label with connections without a row. */
  ghost predicate RowCounted(s: State, name: string) {
    if name in s.rows then s.rows[name] == Sum(s.infos, Some(name))
    else |s.rows| <= 128 ==> Sum(s.infos, Some(name)) == BLANK
  }

  /** The open connections are open, and the history is about connections there were. */
  ghost predicate InRange(s: State) {
    && (forall k | 0 <= k < |s.connections| :: s.connections[k] < |s.infos| && s.infos[s.connections[k]].active)
    && (forall k | 0 <= k < |s.history| :: s.history[k] < |s.infos|)
  }

  // ----- the object -----

  class Stats {
    const startTime: nat
    var infos: seq<Info>
    var streams: seq<Stream>
    var connections: seq<nat>
    var history: seq<nat>
    var byUser: map<string, Row>
    var totals: Totals

    ghost function View(): State
      reads this
    {
      State(infos, streams, connections, history, byUser, totals)
    }

    constructor (labels: seq<string>, now: nat)
      ensures View() == Start(labels) && startTime == now
    {
      startTime := now;
      infos, streams, connections, history := [], [], [], [];
      byUser := map name | name in labels :: BLANK;
      totals := Totals(0, 0, 0, 0, 0, 0, 0, 0, 0);
    }

    predicate Known(h: Option<nat>)
      reads this
    {
      h.Some? && h.value < |infos|
    }

    method AddToUser(name: string, r: Row)
      modifies `byUser
      ensures byUser == AddToRow(old(byUser), name, r)
    {
      if name in byUser { byUser := byUser[name := byUser[name].Plus(r)]; }
    }

    method OnOpen(name: string, now: nat) returns (h: nat)
      modifies this
      ensures View() == OpenConnection(old(View()), name, now) && h == |old(infos)|
    {
      h := |infos|;
      infos := infos + [Info(name, true, now, 0, 0, "", Tcp, 0, 0)];
      connections := connections + [h];
      totals := totals.(totalConnections := totals.totalConnections + 1,
          activeConnections := totals.activeConnections + 1);
      if name !in byUser && |byUser| <= 128 { byUser := byUser[name := BLANK]; }
      AddToUser(name, Row(1, 1, 0, 0, 0));
    }

    method OnClose(h: Option<nat>, now: nat)
      modifies this
      ensures View() == CloseConnection(old(View()), h, now)
    {
      if !Known(h) || !infos[h.value].active { return; }
      var info := infos[h.value];
      infos := infos[h.value := info.(active := false, endTime := now)];
      totals := totals.(activeConnections := totals.activeConnections - 1);
      connections := Drop(connections, h.value);
      if info.name in byUser && byUser[info.name].active > 0 { AddToUser(info.name, Row(-1, 0, 0, 0, 0)); }
      history := history + [h.value];
      if |history| > MAX_HISTORY { history := history[|history| - MAX_HISTORY..]; }
    }

    method OnStart(h: Option<nat>, proto: Proto, host: string, port: nat, now: nat) returns (r: nat)
      modifies this
      ensures View() == StartStream(old(View()), h, proto, host, port, now) && r == |old(streams)|
    {
      hide Numeral;
      r := |streams|;
      streams := streams + [Stream(proto, false, now, 0, 0)];
      totals := totals.(totalStreams := totals.totalStreams + 1, activeStreams := totals.activeStreams + 1);
      if Known(h) {
        var info := infos[h.value];
        infos := infos[h.value := info.(streams := info.streams + 1, lastHost := host + ":" + Numeral(port, 10),
            lastProto := proto)];
        AddToUser(info.name, Row(0, 0, 1, 0, 0));
      }
      totals := Gauge(totals, proto, 1);
    }

    method OnEnd(r: Option<nat>)
      modifies this
      ensures View() == EndStream(old(View()), r)
    {
      if r.None? || r.value >= |streams| || streams[r.value].ended { return; }
      streams := streams[r.value := streams[r.value].(ended := true)];
      totals := totals.(activeStreams := totals.activeStreams - 1);
      totals := Gauge(totals, streams[r.value].proto, -1);
    }

    method AddBytes(h: Option<nat>, r: Option<nat>, tx: nat, rx: nat)
      modifies this
      ensures View() == Add(old(View()), h, r, tx, rx)
    {
      if r.Some? && r.value < |streams| {
        var stream := streams[r.value];
        streams := streams[r.value := stream.(tx := stream.tx + tx, rx := stream.rx + rx)];
      }
      totals := totals.(tx := totals.tx + tx, rx := totals.rx + rx);
      if Known(h) {
        var info := infos[h.value];
        infos := infos[h.value := info.(tx := info.tx + tx, rx := info.rx + rx)];
        AddToUser(info.name, Row(0, 0, 0, tx, rx));
      }
    }

    /** The rows in decreasing order of traffic, cut to what is shown. */
    method HeaviestUsers() returns (users: seq<(string, Row)>, ghost order: seq<string>)
      ensures Heaviest(byUser, order) && users == UserRows(byUser, order)
    {
      users, order := [], [];
      var left := byUser.Keys;
      while left != {} && |users| < USERS_SHOWN
        invariant left <= byUser.Keys && Ranked(byUser, left, order) && |order| <= USERS_SHOWN
        invariant (forall name <- order :: name in byUser) && users == UserRows(byUser, order)
      {
        var best := HeaviestOf(left);
        RankedSnoc(byUser, left, order, best);
        UserRowsSnoc(byUser, order, best);
        hide Ranked, UserRows;
        users := users + [(if best == "" then "owner" else best, byUser[best])];
        order := order + [best];
        left := left - {best};
      }
    }

    method HeaviestOf(names: set<string>) returns (best: string)
      requires names != {} && names <= byUser.Keys
      ensures best in names && forall name <- names :: Traffic(byUser[name]) <= Traffic(byUser[best])
    {
      best :| best in names;
      var left := names - {best};
      while left != {}
        invariant left <= names && best in names
        invariant forall name <- names - left :: Traffic(byUser[name]) <= Traffic(byUser[best])
      {
        var name :| name in left;
        if Traffic(byUser[name]) > Traffic(byUser[best]) { best := name; }
        left := left - {name};
      }
    }

    /**
     What the dashboard shows: the totals, the open connections, the latest closed ones, newest first, and the
     users with the most traffic, heaviest first.
     */
    method Snapshot(now: nat)
        returns (uptimeSeconds: int, counts: Totals, active: seq<Shown>, recent: seq<Shown>, users: seq<(string, Row)>,
                 ghost order: seq<string>)
      requires InRange(View())
      ensures uptimeSeconds == (now - startTime) / 1000 && counts == totals
      ensures active == Describe(infos, connections, now)
      ensures recent == Describe(infos, Newest(history), now)
      ensures Heaviest(byUser, order) && users == UserRows(byUser, order)
    {
      users, order := HeaviestUsers();
      uptimeSeconds, counts := (now - startTime) / 1000, totals;
      active, recent := [], [];
      for k := 0 to |connections|
        invariant active == Describe(infos, connections[..k], now)
      {
        var info := infos[connections[k]];
        if info.active { active := active + [ShownAs(info, connections[k], now)]; }
      }
      assert connections[..|connections|] == connections;
      var i := |history|;
      while i > 0 && |recent| < HISTORY_SHOWN
        invariant 0 <= i <= |history| && |recent| == |history| - i <= HISTORY_SHOWN
        invariant forall k | 0 <= k < |recent| ::
                    recent[k] == ShownAs(infos[history[|history| - 1 - k]], history[|history| - 1 - k], now)
      {
        i := i - 1;
        recent := recent + [ShownAs(infos[history[i]], history[i], now)];
      }
    }
  }

  function Traffic(r: Row): int {
    r.tx + r.rx
  }

  /** These are users with the most traffic, in decreasing order: all of them, or as many as are shown. */
  ghost predicate Heaviest(rows: map<string, Row>, order: seq<string>) {
    && Distinct(order) && (forall name <- order :: name in rows)
    && |order| == (if |rows| < USERS_SHOWN then |rows| else USERS_SHOWN)
    && (forall i, j | 0 <= i <= j < |order| :: Traffic(rows[order[i]]) >= Traffic(rows[order[j]]))
    && (forall i, name | 0 <= i < |order| && name in rows && name !in order ::
          Traffic(rows[order[i]]) >= Traffic(rows[name]))
  }

  /** The heaviest users are in order, the others are left. */
  ghost predicate Ranked(rows: map<string, Row>, left: set<string>, order: seq<string>) {
    && |order| + |left| == |rows| && left <= rows.Keys
    && (forall name <- rows :: name in left <==> name !in order)
    && Distinct(order) && (forall name <- order :: name in rows)
    && (forall i, j | 0 <= i <= j < |order| :: Traffic(rows[order[i]]) >= Traffic(rows[order[j]]))
    && (forall i, name | 0 <= i < |order| && name in left :: Traffic(rows[order[i]]) >= Traffic(rows[name]))
  }

  lemma RankedSnoc(rows: map<string, Row>, left: set<string>, order: seq<string>, best: string)
    requires Ranked(rows, left, order) && best in left
    requires forall name <- left :: Traffic(rows[name]) <= Traffic(rows[best])
    ensures Ranked(rows, left - {best}, order + [best])
  {
    var more := order + [best];
    hide Traffic;
    assert forall name :: name in more <==> name in order || name == best;
  }

  /** The rows as they are shown: the operator's own connections carry no label. */
  function UserRows(rows: map<string, Row>, order: seq<string>): seq<(string, Row)>
    requires forall name <- order :: name in rows
  {
    seq(|order|, i requires 0 <= i < |order| => (if order[i] == "" then "owner" else order[i], rows[order[i]]))
  }

  lemma UserRowsSnoc(rows: map<string, Row>, order: seq<string>, name: string)
    requires name in rows && forall other <- order :: other in rows
    ensures forall other <- order + [name] :: other in rows
    ensures UserRows(rows, order + [name])
         == UserRows(rows, order) + [(if name == "" then "owner" else name, rows[name])]
  {
  }

  datatype Shown = Shown(id: nat, name: string, durationSeconds: int, streams: nat, lastHost: string, lastProto: Proto)

  function ShownAs(info: Info, h: nat, now: nat): Shown {
    Shown(h + 1, info.name, ((if info.active then now else info.endTime) - info.startTime) / 1000, info.streams,
        info.lastHost, info.lastProto)
  }

  function Describe(infos: seq<Info>, handles: seq<nat>, now: nat): seq<Shown>
    requires forall k | 0 <= k < |handles| :: handles[k] < |infos|
  {
    seq(|handles|, k requires 0 <= k < |handles| => ShownAs(infos[handles[k]], handles[k], now))
  }

  function Newest(s: seq<nat>): seq<nat> {
    var n := if |s| < HISTORY_SHOWN then |s| else HISTORY_SHOWN;
    seq(n, k requires 0 <= k < n => s[|s| - 1 - k])
  }

  // ----- how one change moves the counts -----

  lemma SumSnoc(infos: seq<Info>, x: Info, name: Option<string>)
    ensures Sum(infos + [x], name) == Sum(infos, name).Plus(Share(x, name))
  {
    assert (infos + [x])[..|infos|] == infos;
  }

  lemma SumLast(infos: seq<Info>, name: Option<string>)
    requires infos != []
    ensures Sum(infos, name) == Sum(infos[..|infos| - 1], name).Plus(Share(infos[|infos| - 1], name))
  {
  }

  lemma {:induction false} SumUpdate(infos: seq<Info>, i: nat, x: Info, name: Option<string>)
    requires i < |infos|
    ensures Sum(infos[i := x], name).Plus(Share(infos[i], name)) == Sum(infos, name).Plus(Share(x, name))
    decreases |infos|
  {
    hide Sum, Share;
    var n := |infos| - 1;
    SumLast(infos, name);
    SumLast(infos[i := x], name);
    if i == n {
      assert infos[i := x][..n] == infos[..n];
    } else {
      assert infos[i := x][..n] == infos[..n][i := x];
      SumUpdate(infos[..n], i, x, name);
    }
  }

  /** No connection is missing from the sum. */
  lemma {:induction false} SumCovers(infos: seq<Info>, i: nat, name: Option<string>)
    requires i < |infos|
    ensures Share(infos[i], name).active <= Sum(infos, name).active
            && Share(infos[i], name).total <= Sum(infos, name).total
    decreases |infos|
  {
    var n := |infos| - 1;
    if i < n {
      SumCovers(infos[..n], i, name);
    } else {
      SumNatural(infos[..n], name);
    }
  }

  lemma {:induction false} SumNatural(infos: seq<Info>, name: Option<string>)
    ensures Sum(infos, name).active >= 0 && Sum(infos, name).total >= 0
    decreases |infos|
  {
    if infos == [] {
    } else {
      SumNatural(infos[..|infos| - 1], name);
    }
  }

  lemma OpenOnesSnoc(infos: seq<Info>, x: Info)
    ensures OpenOnes(infos + [x]) == OpenOnes(infos) + if x.active then [|infos|] else []
  {
    assert (infos + [x])[..|infos|] == infos;
  }

  lemma {:induction false} OpenOnesBelow(infos: seq<Info>)
    ensures forall k | 0 <= k < |OpenOnes(infos)| :: OpenOnes(infos)[k] < |infos| && infos[OpenOnes(infos)[k]].active
    decreases |infos|
  {
    if infos == [] {
    } else {
      OpenOnesBelow(infos[..|infos| - 1]);
    }
  }

  lemma DropSnoc(s: seq<nat>, x: nat, h: nat)
    ensures Drop(s + [x], h) == Drop(s, h) + if x == h then [] else [x]
  {
    assert (s + [x])[..|s|] == s;
  }

  lemma {:induction false} DropAbsent(s: seq<nat>, h: nat)
    requires forall k | 0 <= k < |s| :: s[k] != h
    ensures Drop(s, h) == s
    decreases |s|
  {
    if s == [] {
    } else {
      DropAbsent(s[..|s| - 1], h);
    }
  }

  lemma {:induction false} OpenOnesKeep(infos: seq<Info>, h: nat, x: Info)
    requires h < |infos| && x.active == infos[h].active
    ensures OpenOnes(infos[h := x]) == OpenOnes(infos)
    decreases |infos|
  {
    var n := |infos| - 1;
    if h == n {
      assert infos[h := x][..n] == infos[..n];
    } else {
      assert infos[h := x][..n] == infos[..n][h := x];
      OpenOnesKeep(infos[..n], h, x);
    }
  }

  lemma {:induction false} OpenOnesClose(infos: seq<Info>, h: nat, x: Info)
    requires h < |infos| && infos[h].active && !x.active
    ensures OpenOnes(infos[h := x]) == Drop(OpenOnes(infos), h)
    ensures |OpenOnes(infos[h := x])| == |OpenOnes(infos)| - 1
    decreases |infos|
  {
    var n := |infos| - 1;
    var before := infos[..n];
    OpenOnesBelow(before);
    if h == n {
      assert infos[h := x][..n] == before;
      assert OpenOnes(infos) == OpenOnes(before) + [n] && OpenOnes(infos[h := x]) == OpenOnes(before) + [];
      DropSnoc(OpenOnes(before), n, n);
      DropAbsent(OpenOnes(before), n);
    } else {
      assert infos[h := x][..n] == before[h := x];
      OpenOnesClose(before, h, x);
      var last := if infos[n].active then [n] else [];
      assert OpenOnes(infos) == OpenOnes(before) + last && OpenOnes(infos[h := x]) == OpenOnes(before[h := x]) + last;
      hide OpenOnes, Drop;
      if infos[n].active {
        DropSnoc(OpenOnes(before), n, h);
      } else {
        assert OpenOnes(before) + [] == OpenOnes(before);
        assert OpenOnes(before[h := x]) + [] == OpenOnes(before[h := x]);
      }
    }
  }

  lemma RunningSnoc(streams: seq<Stream>, x: Stream, proto: Option<Proto>)
    ensures Running(streams + [x], proto) ==
            Running(streams, proto) + if !x.ended && (proto.None? || proto.value == x.proto) then 1 else 0
  {
    assert (streams + [x])[..|streams|] == streams;
  }

  /** What one stream counts for. */
  function Counts(x: Stream, proto: Option<Proto>): int {
    if !x.ended && (proto.None? || proto.value == x.proto) then 1 else 0
  }

  lemma {:induction false} RunningUpdate(streams: seq<Stream>, i: nat, x: Stream, proto: Option<Proto>)
    requires i < |streams|
    ensures Running(streams[i := x], proto) + Counts(streams[i], proto) == Running(streams, proto) + Counts(x, proto)
    decreases |streams|
  {
    var n := |streams| - 1;
    if i == n {
      assert streams[i := x][..n] == streams[..n];
    } else {
      assert streams[i := x][..n] == streams[..n][i := x];
      RunningUpdate(streams[..n], i, x, proto);
    }
  }

  // ----- every call keeps the counts -----

  lemma StepCounts(s: State, c: Call)
    requires Counted(s)
    ensures Counted(Step(s, c))
  {
    hide OpenOnes, Running, AddToRow, WithRow, Latest, Numeral, Drop;
    match c
    case Opens(name, now) => OpenOnesSnoc(s.infos, Info(name, true, now, 0, 0, "", Tcp, 0, 0));
    case Closes(h, now) =>
      if Knows(s, h) && s.infos[h.value].active {
        OpenOnesClose(s.infos, h.value, s.infos[h.value].(active := false, endTime := now));
      }
    case Starts(h, proto, host, port, now) =>
      AllRunningSnoc(s.streams, Stream(proto, false, now, 0, 0));
      if Knows(s, h) { OpenOnesKeep(s.infos, h.value, Step(s, c).infos[h.value]); }
    case Ends(r) =>
      if r.Some? && r.value < |s.streams| { AllRunningUpdate(s.streams, r.value, s.streams[r.value].(ended := true)); }
    case AddsTx(h, r, n) => AddCounts(s, h, r, n, 0);
    case AddsRx(h, r, n) => AddCounts(s, h, r, 0, n);
    case NotesMux =>
  }

  lemma AllRunningSnoc(streams: seq<Stream>, x: Stream)
    requires !x.ended
    ensures Running(streams + [x], None) == Running(streams, None) + 1
    ensures Running(streams + [x], Some(Tcp)) == Running(streams, Some(Tcp)) + if x.proto.Tcp? then 1 else 0
    ensures Running(streams + [x], Some(Udp)) == Running(streams, Some(Udp)) + if x.proto.Udp? then 1 else 0
  {
    RunningSnoc(streams, x, None);
    RunningSnoc(streams, x, Some(Tcp));
    RunningSnoc(streams, x, Some(Udp));
  }

  lemma AllRunningUpdate(streams: seq<Stream>, i: nat, x: Stream)
    requires i < |streams|
    ensures Running(streams[i := x], None) + Counts(streams[i], None) == Running(streams, None) + Counts(x, None)
    ensures Running(streams[i := x], Some(Tcp)) + Counts(streams[i], Some(Tcp))
            == Running(streams, Some(Tcp)) + Counts(x, Some(Tcp))
    ensures Running(streams[i := x], Some(Udp)) + Counts(streams[i], Some(Udp))
            == Running(streams, Some(Udp)) + Counts(x, Some(Udp))
  {
    RunningUpdate(streams, i, x, None);
    RunningUpdate(streams, i, x, Some(Tcp));
    RunningUpdate(streams, i, x, Some(Udp));
  }

  lemma AddCounts(s: State, h: Option<nat>, r: Option<nat>, tx: nat, rx: nat)
    requires Counted(s)
    ensures Counted(Add(s, h, r, tx, rx))
  {
    hide OpenOnes, Running, AddToRow;
    var t := Add(s, h, r, tx, rx);
    if Knows(s, h) { OpenOnesKeep(s.infos, h.value, t.infos[h.value]); }
    if r.Some? && r.value < |s.streams| { AllRunningUpdate(s.streams, r.value, t.streams[r.value]); }
  }

  /**
   The gauges of the dashboard after any sequence of calls, repeated and out-of-order ones among them:
   open connections, streams not ended, and both protocols.
   */
  lemma {:induction false} RunIsCounted(labels: seq<string>, calls: seq<Call>)
    ensures Counted(Run(labels, calls))
    decreases |calls|
  {
    if calls == [] {
    } else {
      RunIsCounted(labels, calls[..|calls| - 1]);
      StepCounts(Run(labels, calls[..|calls| - 1]), calls[|calls| - 1]);
    }
  }

  // ----- rows and bytes -----

  /** The bytes of calls that name no connection. */
  ghost function Loose(labels: seq<string>, calls: seq<Call>): (int, int)
    decreases |calls|
  {
    if calls == [] then (0, 0) else
    var before, c := calls[..|calls| - 1], calls[|calls| - 1];
    var (tx, rx) := Loose(labels, before);
    if c.AddsTx? && !Knows(Run(labels, before), c.h) then (tx + c.n, rx)
    else if c.AddsRx? && !Knows(Run(labels, before), c.h) then (tx, rx + c.n)
    else (tx, rx)
  }

  lemma PlusBlank(r: Row)
    ensures r.Plus(BLANK) == r && BLANK.Plus(r) == r
  {
  }

  /** What a change to a connection of label `mine` is worth for the row of `name`. */
  function Worth(delta: Row, mine: string, name: Option<string>): Row {
    if name.Some? && name.value != mine then BLANK else delta
  }

  lemma InfoChange(infos: seq<Info>, h: nat, x: Info, delta: Row, name: Option<string>)
    requires h < |infos| && x.name == infos[h].name && Share(x, None) == Share(infos[h], None).Plus(delta)
    ensures Sum(infos[h := x], name) == Sum(infos, name).Plus(Worth(delta, x.name, name))
  {
    hide Sum;
    SumUpdate(infos, h, x, name);
    ShareChange(infos[h], x, delta, name);
    hide *;
    Cancel(Sum(infos[h := x], name), Sum(infos, name), Share(infos[h], name), Worth(delta, x.name, name));
  }

  lemma ShareChange(was: Info, x: Info, delta: Row, name: Option<string>)
    requires x.name == was.name && Share(x, None) == Share(was, None).Plus(delta)
    ensures Share(x, name) == Share(was, name).Plus(Worth(delta, x.name, name))
  {
    ShareIs(x, name);
    ShareIs(was, name);
    PlusBlank(BLANK);
    hide Share, Row.Plus;
  }

  lemma ShareIs(info: Info, name: Option<string>)
    ensures Share(info, name) == if name.Some? && name.value != info.name then BLANK else Share(info, None)
  {
  }

  lemma Cancel(after: Row, before: Row, share: Row, delta: Row)
    requires after.Plus(share) == before.Plus(share.Plus(delta))
    ensures after == before.Plus(delta)
  {
  }

  lemma AddedRow(rows: map<string, Row>, mine: string, delta: Row, name: string)
    ensures var after := AddToRow(rows, mine, delta);
            && |after| == |rows| && (name in after <==> name in rows)
            && (name in rows ==> after[name] == rows[name].Plus(Worth(delta, mine, Some(name))))
  {
    var after := AddToRow(rows, mine, delta);
    assert after.Keys == rows.Keys && |after| == |after.Keys| && |rows| == |rows.Keys|;
    if name in rows && name != mine { PlusBlank(rows[name]); }
  }

  /** A label nothing is counted for is not the label of any connection. */
  lemma NothingCounted(infos: seq<Info>, h: nat, delta: Row, name: string)
    requires h < |infos| && Sum(infos, Some(name)) == BLANK
    ensures Worth(delta, infos[h].name, Some(name)) == BLANK
  {
    SumCovers(infos, h, Some(name));
    hide Sum;
  }

  /** Changing a connection and the row of its label by the same amount. */
  lemma RowChange(s: State, h: nat, x: Info, delta: Row, name: string)
    requires RowCounted(s, name) && h < |s.infos| && x.name == s.infos[h].name
    requires Share(x, None) == Share(s.infos[h], None).Plus(delta)
    ensures RowCounted(s.(infos := s.infos[h := x], rows := AddToRow(s.rows, x.name, delta)), name)
  {
    hide Sum, AddToRow, Worth, Share, Row.Plus;
    InfoChange(s.infos, h, x, delta, Some(name));
    AddedRow(s.rows, x.name, delta, name);
    if name !in s.rows && |s.rows| <= 128 {
      NothingCounted(s.infos, h, delta, name);
      PlusBlank(BLANK);
    }
  }

  lemma StepRows(s: State, c: Call, name: string)
    requires RowCounted(s, name) && RowCounted(s, Closing(s, c, name))
    ensures RowCounted(Step(s, c), name)
  {
    hide Numeral, Latest, Drop, Sum, AddToRow;
    var t := Step(s, c);
    match c
    case Opens(n, now) => OpenRows(s, n, now, name);
    case Closes(h, now) =>
      if Knows(s, h) && s.infos[h.value].active { CloseRows(s, h.value, now, name); }
    case Starts(h, _, _, _, _) =>
      if Knows(s, h) { RowChange(s, h.value, t.infos[h.value], Row(0, 0, 1, 0, 0), name); }
    case Ends(_) =>
    case AddsTx(h, _, n) =>
      if Knows(s, h) { RowChange(s, h.value, t.infos[h.value], Row(0, 0, 0, n, 0), name); }
    case AddsRx(h, _, n) =>
      if Knows(s, h) { RowChange(s, h.value, t.infos[h.value], Row(0, 0, 0, 0, n), name); }
    case NotesMux =>
  }

  lemma OpenRows(s: State, n: string, now: nat, name: string)
    requires RowCounted(s, name)
    ensures RowCounted(OpenConnection(s, n, now), name)
  {
    hide Sum, AddToRow, WithRow, Worth, Share, Row.Plus;
    var x, one := Info(n, true, now, 0, 0, "", Tcp, 0, 0), Row(1, 1, 0, 0, 0);
    SumSnoc(s.infos, x, Some(name));
    ShareOfNew(x, Some(name));
    RowMade(s.rows, n, name);
    AddedRow(WithRow(s.rows, n), n, one, name);
    if name !in WithRow(s.rows, n) && |WithRow(s.rows, n)| <= 128 {
      OtherLabel(s.rows, n, one, name);
      PlusBlank(BLANK);
    }
  }

  lemma ShareOfNew(x: Info, name: Option<string>)
    requires x.active && x.streams == x.tx == x.rx == 0
    ensures Share(x, name) == Worth(Row(1, 1, 0, 0, 0), x.name, name)
  {
  }

  lemma RowMade(rows: map<string, Row>, n: string, name: string)
    ensures var made := WithRow(rows, n);
            && |rows| <= |made| && (name in rows ==> name in made && made[name] == rows[name])
            && (name in made && name !in rows ==> |rows| <= 128 && made[name] == BLANK)
  {
    var made := WithRow(rows, n);
    assert rows.Keys <= made.Keys && |made| == |made.Keys| && |rows| == |rows.Keys|;
    SubsetIsNoLarger(rows.Keys, made.Keys);
  }

  lemma OtherLabel(rows: map<string, Row>, n: string, delta: Row, name: string)
    requires name !in WithRow(rows, n) && |WithRow(rows, n)| <= 128
    ensures Worth(delta, n, Some(name)) == BLANK
  {
  }

  /** The guard against a negative count of open connections is never needed. */
  lemma GuardIsIdle(s: State, h: nat)
    requires h < |s.infos|
    ensures var name := s.infos[h].name;
            s.infos[h].active && RowCounted(s, name) && name in s.rows ==> s.rows[name].active > 0
  {
    SumCovers(s.infos, h, Some(s.infos[h].name));
  }

  lemma CloseRows(s: State, h: nat, now: nat, name: string)
    requires h < |s.infos| && s.infos[h].active && RowCounted(s, name) && RowCounted(s, s.infos[h].name)
    ensures RowCounted(CloseConnection(s, Some(h), now), name)
  {
    hide Sum, Latest, Drop;
    var info := s.infos[h];
    var closed, delta := info.(active := false, endTime := now), Row(-1, 0, 0, 0, 0);
    GuardIsIdle(s, h);
    assert Share(closed, None) == Share(info, None).Plus(delta);
    assert info.name !in s.rows ==> AddToRow(s.rows, info.name, delta) == s.rows;
    hide AddToRow, Share, Row.Plus;
    RowChange(s, h, closed, delta, name);
  }

  /** The label of the connection a call closes. */
  function Closing(s: State, c: Call, name: string): string {
    if c.Closes? && Knows(s, c.h) then s.infos[c.h.value].name else name
  }

  /**
   After any sequence of calls a user's row is the sum of that user's connections: how many, how many open,
   streams and bytes.
   */
  lemma {:induction false} RowsAreSums(labels: seq<string>, calls: seq<Call>, name: string)
    ensures RowCounted(Run(labels, calls), name)
    decreases |calls|
  {
    if calls == [] {
    } else {
      var before, c := calls[..|calls| - 1], calls[|calls| - 1];
      RowsAreSums(labels, before, name);
      RowsAreSums(labels, before, Closing(Run(labels, before), c, name));
      StepRows(Run(labels, before), c, name);
    }
  }

  /** Every byte is on a connection's record or came with no connection. */
  lemma {:induction false} BytesAreKept(labels: seq<string>, calls: seq<Call>)
    ensures var s := Run(labels, calls);
            && s.totals.tx == Sum(s.infos, None).tx + Loose(labels, calls).0
            && s.totals.rx == Sum(s.infos, None).rx + Loose(labels, calls).1
    decreases |calls|
  {
    if calls == [] {
    } else {
      var before, c := calls[..|calls| - 1], calls[|calls| - 1];
      BytesAreKept(labels, before);
      var s := Run(labels, before);
      assert Run(labels, calls) == Step(s, c);
      StepSums(s, c);
      hide Sum, Step, Run;
    }
  }

  lemma StepSums(s: State, c: Call)
    ensures var t := Step(s, c);
            var tx := if c.AddsTx? then c.n else 0;
            var rx := if c.AddsRx? then c.n else 0;
            && t.totals.tx == s.totals.tx + tx && t.totals.rx == s.totals.rx + rx
            && var known := (c.AddsTx? || c.AddsRx?) && Knows(s, c.h);
               && Sum(t.infos, None).tx == Sum(s.infos, None).tx + (if known then tx else 0)
               && Sum(t.infos, None).rx == Sum(s.infos, None).rx + (if known then rx else 0)
  {
    hide Sum, Numeral, Latest, Drop, AddToRow, WithRow;
    var t := Step(s, c);
    match c
    case Opens(n, now) => SumSnoc(s.infos, Info(n, true, now, 0, 0, "", Tcp, 0, 0), None);
    case Closes(h, now) =>
      if Knows(s, h) && s.infos[h.value].active {
        InfoChange(s.infos, h.value, t.infos[h.value], Row(-1, 0, 0, 0, 0), None);
      }
    case Starts(h, _, _, _, _) =>
      if Knows(s, h) { InfoChange(s.infos, h.value, t.infos[h.value], Row(0, 0, 1, 0, 0), None); }
    case Ends(_) =>
    case AddsTx(h, _, n) =>
      if Knows(s, h) { InfoChange(s.infos, h.value, t.infos[h.value], Row(0, 0, 0, n, 0), None); }
    case AddsRx(h, _, n) =>
      if Knows(s, h) { InfoChange(s.infos, h.value, t.infos[h.value], Row(0, 0, 0, 0, n), None); }
    case NotesMux =>
  }

  ghost predicate Distinct(names: seq<string>) {
    forall i, j | 0 <= i < j < |names| :: names[i] != names[j]
  }

  /** The sum of the listed rows. */
  ghost function SumRows(rows: map<string, Row>, names: seq<string>): Row
    requires forall i | 0 <= i < |names| :: names[i] in rows
    decreases |names|
  {
    if names == [] then BLANK else
    SumRows(rows, names[..|names| - 1]).Plus(rows[names[|names| - 1]])
  }

  /** What one connection adds to all the listed labels together. */
  ghost function Shares(x: Info, names: seq<string>): Row
    decreases |names|
  {
    if names == [] then BLANK else
    Shares(x, names[..|names| - 1]).Plus(Share(x, Some(names[|names| - 1])))
  }

  /** The sums of all the listed labels together. */
  ghost function Sums(infos: seq<Info>, names: seq<string>): Row
    decreases |names|
  {
    if names == [] then BLANK else
    Sums(infos, names[..|names| - 1]).Plus(Sum(infos, Some(names[|names| - 1])))
  }

  lemma {:induction false} SharesOnce(x: Info, names: seq<string>)
    requires Distinct(names)
    ensures Shares(x, names) == if x.name in names then Share(x, None) else BLANK
    decreases |names|
  {
    if names == [] {
    } else {
      var before, last := names[..|names| - 1], names[|names| - 1];
      assert x.name in names <==> x.name in before || x.name == last by { assert names == before + [last]; }
      SharesOnce(x, before);
      assert last !in before;
      assert Shares(x, names) == Shares(x, before).Plus(Share(x, Some(last)));
      assert Share(x, Some(last)) == if x.name == last then Share(x, None) else BLANK;
      PlusBlank(Shares(x, before));
      PlusBlank(Share(x, None));
      hide *;
    }
  }

  lemma PlusSwap(a: Row, b: Row, c: Row, d: Row)
    ensures a.Plus(b).Plus(c.Plus(d)) == a.Plus(c).Plus(b.Plus(d))
  {
  }

  lemma {:induction false} SumsSnoc(infos: seq<Info>, x: Info, names: seq<string>)
    ensures Sums(infos + [x], names) == Sums(infos, names).Plus(Shares(x, names))
    decreases |names|
  {
    if names == [] {
      PlusBlank(BLANK);
    } else {
      var before, last := names[..|names| - 1], names[|names| - 1];
      SumsLast(infos, names);
      SumsLast(infos + [x], names);
      assert Shares(x, names) == Shares(x, before).Plus(Share(x, Some(last)));
      hide *;
      SumsSnoc(infos, x, before);
      SumSnoc(infos, x, Some(last));
      PlusSwap(Sums(infos, before), Shares(x, before), Sum(infos, Some(last)), Share(x, Some(last)));
    }
  }

  lemma SumsLast(infos: seq<Info>, names: seq<string>)
    requires names != []
    ensures Sums(infos, names) == Sums(infos, names[..|names| - 1]).Plus(Sum(infos, Some(names[|names| - 1])))
  {
    hide Sum;
  }

  lemma {:induction false} SumsOfNone(names: seq<string>)
    ensures Sums([], names) == BLANK
    decreases |names|
  {
    if names == [] {
    } else {
      SumsOfNone(names[..|names| - 1]);
    }
  }

  /** Every connection has one of these labels. */
  ghost predicate AllNamed(infos: seq<Info>, names: seq<string>) {
    forall i | 0 <= i < |infos| :: infos[i].name in names
  }

  lemma AllNamedLast(infos: seq<Info>, names: seq<string>)
    requires infos != []
    ensures var n := |infos| - 1; AllNamed(infos, names) <==> AllNamed(infos[..n], names) && infos[n].name in names
  {
    var before := infos[..|infos| - 1];
    assert forall i | 0 <= i < |before| :: before[i] == infos[i];
  }

  /** Each connection is counted under at most one label, and under one exactly when its own is there. */
  lemma {:induction false} SumsCover(infos: seq<Info>, names: seq<string>)
    requires Distinct(names)
    ensures Sums(infos, names).total <= |infos|
    ensures AllNamed(infos, names) <==> Sums(infos, names).total == |infos|
    ensures AllNamed(infos, names) ==> Sums(infos, names) == Sum(infos, None)
    decreases |infos|
  {
    if infos == [] {
      SumsOfNone(names);
    } else {
      var before, x := infos[..|infos| - 1], infos[|infos| - 1];
      assert infos == before + [x];
      SumLast(infos, None);
      SharesOnce(x, names);
      AllNamedLast(infos, names);
      assert Share(x, None).total == 1;
      hide Sum, Sums, Shares, Share, Distinct, AllNamed;
      SumsSnoc(before, x, names);
      SumsCover(before, names);
    }
  }

  lemma {:induction false} ListedRows(s: State, names: seq<string>)
    requires forall i | 0 <= i < |names| :: names[i] in s.rows
    requires forall i | 0 <= i < |names| :: RowCounted(s, names[i])
    ensures SumRows(s.rows, names) == Sums(s.infos, names)
    decreases |names|
  {
    if names == [] {
    } else {
      var before := names[..|names| - 1];
      assert forall i | 0 <= i < |before| :: before[i] == names[i];
      ListedRows(s, before);
      assert RowCounted(s, names[|names| - 1]);
      hide Sum, Row.Plus;
    }
  }

  /** With room in the book every connection has a row. */
  lemma HasRow(s: State, i: nat)
    requires i < |s.infos| && |s.rows| <= 128 && RowCounted(s, s.infos[i].name)
    ensures s.infos[i].name in s.rows
  {
    SumCovers(s.infos, i, Some(s.infos[i].name));
    hide Sum;
  }

  lemma {:induction false} SumCountsAll(infos: seq<Info>)
    ensures Sum(infos, None).total == |infos| && Sum(infos, None).active == |OpenOnes(infos)|
    decreases |infos|
  {
    if infos == [] {
    } else {
      SumCountsAll(infos[..|infos| - 1]);
    }
  }

  /** Every connection there was has a row for its label. */
  ghost predicate EveryoneListed(s: State) {
    forall i | 0 <= i < |s.infos| :: s.infos[i].name in s.rows
  }

  /**
   Conservation: whatever the order of the calls, the rows together are the totals when every connection
   has a row: bytes both ways (beside those that named no connection), connections and open connections.
   They count all connections exactly then.
   */
  lemma RowsAddUp(labels: seq<string>, calls: seq<Call>, names: seq<string>)
    requires Distinct(names) && forall name :: name in names <==> name in Run(labels, calls).rows
    ensures var s := Run(labels, calls);
            var all := SumRows(s.rows, names);
            && (EveryoneListed(s) <==> s.totals.totalConnections == all.total)
            && (EveryoneListed(s) ==>
                  && s.totals.tx == all.tx + Loose(labels, calls).0 && s.totals.rx == all.rx + Loose(labels, calls).1
                  && s.totals.activeConnections == all.active == |s.connections|)
  {
    var s := Run(labels, calls);
    RunIsCounted(labels, calls);
    BytesAreKept(labels, calls);
    SumCountsAll(s.infos);
    hide Run, Loose, Sum, OpenOnes, Running;
    forall i | 0 <= i < |names|
      ensures names[i] in s.rows && RowCounted(s, names[i])
    {
      assert names[i] in names;
      RowsAreSums(labels, calls, names[i]);
    }
    assert EveryoneListed(s) <==> AllNamed(s.infos, names);
    hide RowCounted, EveryoneListed, AllNamed;
    ListedRows(s, names);
    SumsCover(s.infos, names);
  }

  /** Every connection has a row as long as at most 129 labels are configured or ever seen. */
  lemma RoomForAll(labels: seq<string>, calls: seq<Call>, all: set<string>)
    requires |all| <= 129 && (forall i | 0 <= i < |labels| :: labels[i] in all)
    requires forall i | 0 <= i < |calls| :: calls[i].Opens? ==> calls[i].name in all
    ensures EveryoneListed(Run(labels, calls))
  {
    RowsWithin(labels, calls, all);
    var s := Run(labels, calls);
    hide Run;
    forall i | 0 <= i < |s.infos|
      ensures s.infos[i].name in s.rows
    {
      var name := s.infos[i].name;
      if name !in s.rows {
        SubsetIsNoLarger(s.rows.Keys, all - {name});
        assert |s.rows| == |s.rows.Keys| <= |all - {name}| == |all| - 1;
        RowsAreSums(labels, calls, name);
        HasRow(s, i);
      }
    }
  }

  lemma {:induction false} RowsWithin(labels: seq<string>, calls: seq<Call>, all: set<string>)
    requires forall i | 0 <= i < |labels| :: labels[i] in all
    requires forall i | 0 <= i < |calls| :: calls[i].Opens? ==> calls[i].name in all
    ensures Run(labels, calls).rows.Keys <= all
    ensures forall i | 0 <= i < |Run(labels, calls).infos| :: Run(labels, calls).infos[i].name in all
    decreases |calls|
  {
    if calls == [] {
    } else {
      var n := |calls| - 1;
      RowsWithin(labels, calls[..n], all);
      StepWithin(Run(labels, calls[..n]), calls[n], all);
      hide Step;
    }
  }

  lemma StepWithin(s: State, c: Call, all: set<string>)
    requires s.rows.Keys <= all && forall i | 0 <= i < |s.infos| :: s.infos[i].name in all
    requires c.Opens? ==> c.name in all
    ensures Step(s, c).rows.Keys <= all
    ensures forall i | 0 <= i < |Step(s, c).infos| :: Step(s, c).infos[i].name in all
  {
    hide Numeral, Latest, Drop;
  }

  // ----- the records, from the calls alone -----

  /** What a call does to connection `h`. */
  ghost function Touched(info: Info, h: nat, c: Call): Info {
    match c
    case Closes(target, now) => if target == Some(h) && info.active then info.(active := false, endTime := now)
      else info
    case Starts(target, proto, host, port, _) =>
      if target == Some(h)
      then info.(streams := info.streams + 1, lastHost := host + ":" + Numeral(port, 10), lastProto := proto) else info
    case AddsTx(target, _, n) => if target == Some(h) then info.(tx := info.tx + n) else info
    case AddsRx(target, _, n) => if target == Some(h) then info.(rx := info.rx + n) else info
    case _ => info
  }

  /** What the calls say of connection `h`, if it has been opened. */
  ghost function InfoOf(calls: seq<Call>, h: nat): Option<Info>
    decreases |calls|
  {
    if calls == [] then None else
    var before, c := calls[..|calls| - 1], calls[|calls| - 1];
    if c.Opens? && Opened(before) == h then Some(Info(c.name, true, c.now, 0, 0, "", Tcp, 0, 0))
    else match InfoOf(before, h)
      case None => None
      case Some(info) => Some(Touched(info, h, c))
  }

  /** What a call does to stream `r`. */
  ghost function TouchedStream(stream: Stream, r: nat, c: Call): Stream {
    match c
    case Ends(target) => if target == Some(r) then stream.(ended := true) else stream
    case AddsTx(_, target, n) => if target == Some(r) then stream.(tx := stream.tx + n) else stream
    case AddsRx(_, target, n) => if target == Some(r) then stream.(rx := stream.rx + n) else stream
    case _ => stream
  }

  /** What the calls say of the `r`th stream, if it has begun. */
  ghost function StreamOf(calls: seq<Call>, r: nat): Option<Stream>
    decreases |calls|
  {
    if calls == [] then None else
    var before, c := calls[..|calls| - 1], calls[|calls| - 1];
    if c.Starts? && TallyOf(before).streams == r then Some(Stream(c.proto, false, c.now, 0, 0))
    else match StreamOf(before, r)
      case None => None
      case Some(stream) => Some(TouchedStream(stream, r, c))
  }

  /** The totals that only grow: connections, streams, bytes up and down, mux sessions. */
  datatype Tally = Tally(connections: nat, streams: nat, tx: nat, rx: nat, mux: nat)

  ghost function TallyOf(calls: seq<Call>): Tally
    decreases |calls|
  {
    if calls == [] then Tally(0, 0, 0, 0, 0) else Tallying(TallyOf(calls[..|calls| - 1]), calls[|calls| - 1])
  }

  ghost predicate Tallied(t: Totals, tally: Tally) {
    && t.totalConnections == tally.connections && t.totalStreams == tally.streams
    && t.tx == tally.tx && t.rx == tally.rx && t.muxSessions == tally.mux
  }

  lemma StepTouches(s: State, c: Call)
    ensures var t := Step(s, c);
            && |t.infos| == |s.infos| + (if c.Opens? then 1 else 0)
            && (c.Opens? ==> t.infos[|s.infos|] == Info(c.name, true, c.now, 0, 0, "", Tcp, 0, 0))
            && forall h | 0 <= h < |s.infos| :: t.infos[h] == Touched(s.infos[h], h, c)
  {
    hide Numeral, Latest, Drop, AddToRow, WithRow, Gauge;
  }

  lemma StepTouchesStreams(s: State, c: Call)
    ensures var t := Step(s, c);
            && |t.streams| == |s.streams| + (if c.Starts? then 1 else 0)
            && (c.Starts? ==> t.streams[|s.streams|] == Stream(c.proto, false, c.now, 0, 0))
            && forall r | 0 <= r < |s.streams| :: t.streams[r] == TouchedStream(s.streams[r], r, c)
  {
    hide Numeral, Latest, Drop, AddToRow, WithRow, Gauge;
  }

  ghost function Tallying(t: Tally, c: Call): Tally {
    Tally(t.connections + (if c.Opens? then 1 else 0), t.streams + (if c.Starts? then 1 else 0),
          t.tx + (if c.AddsTx? then c.n else 0), t.rx + (if c.AddsRx? then c.n else 0),
          t.mux + (if c.NotesMux? then 1 else 0))
  }

  lemma StepTallies(s: State, c: Call, tally: Tally)
    requires Tallied(s.totals, tally)
    ensures Tallied(Step(s, c).totals, Tallying(tally, c))
  {
    hide Numeral, Latest, Drop, AddToRow, WithRow;
  }

  /**
   After any calls the records of connections and of streams, and the totals that only grow, are what the calls
   say.
   */
  lemma {:induction false} RecordsAreTold(labels: seq<string>, calls: seq<Call>)
    ensures var s := Run(labels, calls);
            && |s.infos| == Opened(calls) && Tallied(s.totals, TallyOf(calls))
            && (forall h | 0 <= h < |s.infos| :: InfoOf(calls, h) == Some(s.infos[h]))
            && |s.streams| == TallyOf(calls).streams
            && forall r | 0 <= r < |s.streams| :: StreamOf(calls, r) == Some(s.streams[r])
    decreases |calls|
  {
    if calls == [] {
      assert Run(labels, calls) == Start(labels);
    } else {
      var before, c := calls[..|calls| - 1], calls[|calls| - 1];
      RecordsAreTold(labels, before);
      StepTouches(Run(labels, before), c);
      StepTouchesStreams(Run(labels, before), c);
      StepTallies(Run(labels, before), c, TallyOf(before));
      hide Step, Touched, TouchedStream, Tallied;
    }
  }

  /** Each row on the dashboard, field by field. */
  lemma DescribedIs(infos: seq<Info>, handles: seq<nat>, now: nat)
    requires forall k | 0 <= k < |handles| :: handles[k] < |infos|
    ensures |Describe(infos, handles, now)| == |handles|
    ensures forall k | 0 <= k < |handles| ::
              var shown, info := Describe(infos, handles, now)[k], infos[handles[k]];
              && shown.id == handles[k] + 1 && shown.name == info.name && shown.streams == info.streams
              && shown.lastHost == info.lastHost && shown.lastProto == info.lastProto
              && shown.durationSeconds == (if info.active then now - info.startTime
                  else info.endTime - info.startTime) / 1000
  {
  }

  // ----- the history -----

  ghost function Opened(calls: seq<Call>): nat
    decreases |calls|
  {
    if calls == [] then 0 else Opened(calls[..|calls| - 1]) + if calls[|calls| - 1].Opens? then 1 else 0
  }

  /** The connections closed, in order: the first time each, once they are open. */
  ghost function Closures(calls: seq<Call>): seq<nat>
    decreases |calls|
  {
    if calls == [] then [] else
    var before, c := calls[..|calls| - 1], calls[|calls| - 1];
    if c.Closes? && c.h.Some? && c.h.value < Opened(before) && c.h.value !in Closures(before)
    then Closures(before) + [c.h.value]
    else Closures(before)
  }

  lemma ClosuresLast(calls: seq<Call>)
    requires calls != []
    ensures var before, c := calls[..|calls| - 1], calls[|calls| - 1];
            && Opened(calls) == Opened(before) + (if c.Opens? then 1 else 0)
            && Closures(calls)
               == if c.Closes? && c.h.Some? && c.h.value < Opened(before) && c.h.value !in Closures(before)
                  then Closures(before) + [c.h.value] else Closures(before)
  {
  }

  lemma LatestAgain(s: seq<nat>, x: nat, n: nat)
    requires n > 0
    ensures Latest(Latest(s, n) + [x], n) == Latest(s + [x], n)
  {
  }

  /** Which connections are open, after `n` openings and these closures. */
  ghost predicate OpenBut(infos: seq<Info>, n: nat, closed: seq<nat>) {
    && |infos| == n && (forall h <- closed :: h < n)
    && forall h | 0 <= h < n :: infos[h].active <==> h !in closed
  }

  lemma {:induction false} RunClosures(labels: seq<string>, calls: seq<Call>)
    ensures var s := Run(labels, calls);
            && OpenBut(s.infos, Opened(calls), Closures(calls))
            && s.history == Latest(Closures(calls), MAX_HISTORY)
    decreases |calls|
  {
    if calls == [] {
    } else {
      var before, c := calls[..|calls| - 1], calls[|calls| - 1];
      RunClosures(labels, before);
      var s := Run(labels, before);
      ClosuresLast(calls);
      assert Run(labels, calls) == Step(s, c);
      hide Run, Step, OpenBut, Latest, Closures, Opened;
      StepOpen(s, c, Closures(before));
      if c.Closes? && c.h.Some? { LatestAgain(Closures(before), c.h.value, MAX_HISTORY); }
    }
  }

  lemma StepOpen(s: State, c: Call, closed: seq<nat>)
    requires OpenBut(s.infos, |s.infos|, closed)
    ensures var t := Step(s, c);
            var hit := c.Closes? && c.h.Some? && c.h.value < |s.infos| && c.h.value !in closed;
            && OpenBut(t.infos, |s.infos| + (if c.Opens? then 1 else 0), if hit then closed + [c.h.value] else closed)
            && t.history == if hit then Latest(s.history + [c.h.value], MAX_HISTORY) else s.history
  {
    hide Numeral, Drop, AddToRow, WithRow, Latest;
    var t := Step(s, c);
    if c.Closes? {
      assert forall h | 0 <= h < |t.infos| && c.h != Some(h) :: t.infos[h] == s.infos[h];
    } else {
      assert forall h | 0 <= h < |s.infos| :: t.infos[h].active == s.infos[h].active;
    }
  }

  /**
   The history the dashboard shows, after any sequence of calls: the latest closures, newest first, up to
   twenty of them, each connection closed at most once however often its teardown runs.
   */
  lemma ShownHistory(labels: seq<string>, calls: seq<Call>)
    ensures Newest(Run(labels, calls).history) == Newest(Closures(calls))
  {
    RunClosures(labels, calls);
    hide Run, Closures, OpenBut;
  }

  /** So a snapshot can be taken after any sequence of calls. */
  lemma RunIsInRange(labels: seq<string>, calls: seq<Call>)
    ensures InRange(Run(labels, calls))
  {
    var s := Run(labels, calls);
    RunIsCounted(labels, calls);
    RunClosures(labels, calls);
    OpenOnesBelow(s.infos);
    hide Run, Closures, OpenOnes;
    forall k | 0 <= k < |s.history|
      ensures s.history[k] < |s.infos|
    {
      assert s.history[k] in Closures(calls);
    }
  }

  lemma {:induction false} ClosedOnce(calls: seq<Call>)
    ensures forall i, j | 0 <= i < j < |Closures(calls)| :: Closures(calls)[i] != Closures(calls)[j]
    decreases |calls|
  {
    if calls == [] {
    } else {
      ClosedOnce(calls[..|calls| - 1]);
    }
  }
}
