/**
 Incremental parsing in general.  Every reader in the tunnel cuts units off the front of a
 growing buffer.  What makes the result independent of how the bytes were chunked is the same
 for all of them: a cut never changes when more bytes arrive (`Stable`).
 */
module Streams {
  import opened Bytes

  /** What one look at the front of the buffer says: wait for more bytes, or a unit and its length. */
  datatype Cut<+U> = Need | Got(item: U, consumed: nat)

  /** A cut takes at least one byte and no more than there are, and later bytes never change it. */
  ghost predicate Stable<U(!new)>(parse: bytes -> Cut<U>) {
    && (forall a :: parse(a).Got? ==> 0 < parse(a).consumed <= |a|)
    && (forall a, b {:trigger parse(a + b)} :: parse(a).Got? ==> parse(a + b) == parse(a))
  }

  /** All units at the front of the buffer, and the bytes left over. */
  ghost function Walk<U>(parse: bytes -> Cut<U>, buf: bytes): (r: (seq<U>, bytes))
    decreases |buf|
  {
    match parse(buf)
    case Need => ([], buf)
    case Got(item, n) =>
      if 0 < n <= |buf| then
        var (items, rest) := Walk(parse, buf[n..]);
        ([item] + items, rest)
      else ([], buf)
  }

  /** A loop that started on `start` has taken `done` off and now holds `now`. */
  ghost predicate Progress<U>(parse: bytes -> Cut<U>, start: bytes, done: seq<U>, now: bytes) {
    Walk(parse, start) == (done + Walk(parse, now).0, Walk(parse, now).1)
  }

  lemma {:induction false} ProgressStart<U>(parse: bytes -> Cut<U>, start: bytes)
    ensures Progress(parse, start, [], start)
  {
    assert [] + Walk(parse, start).0 == Walk(parse, start).0;
  }

  /** Cutting one unit off is progress, and when there is none left the loop has walked it all. */
  lemma {:induction false} ProgressStep<U>(parse: bytes -> Cut<U>, start: bytes, done: seq<U>, now: bytes)
    requires Progress(parse, start, done, now)
    ensures parse(now).Need? ==> Walk(parse, start) == (done, now)
    ensures parse(now).Got? && 0 < parse(now).consumed <= |now| ==>
              Progress(parse, start, done + [parse(now).item], now[parse(now).consumed..])
  {
    if parse(now).Need? {
      assert done + [] == done;
    } else if 0 < parse(now).consumed <= |now| {
      var item, more := parse(now).item, Walk(parse, now[parse(now).consumed..]).0;
      assert done + ([item] + more) == done + [item] + more;
    }
  }

  /** What remains after a walk holds no complete unit. */
  lemma {:induction false} WalkStops<U(!new)>(parse: bytes -> Cut<U>, buf: bytes)
    requires Stable(parse)
    ensures parse(Walk(parse, buf).1).Need?
    decreases |buf|
  {
    if parse(buf).Got? {
      WalkStops(parse, buf[parse(buf).consumed..]);
    }
  }

  /** Walking `a + b` is walking `a`, then walking what was left of `a` followed by `b`. */
  lemma {:induction false} WalkAppend<U(!new)>(parse: bytes -> Cut<U>, a: bytes, b: bytes)
    requires Stable(parse)
    ensures var (items, rest) := Walk(parse, a);
            var (more, left) := Walk(parse, rest + b);
            Walk(parse, a + b) == (items + more, left)
    decreases |a|
  {
    match parse(a)
    case Need =>
      assert [] + Walk(parse, a + b).0 == Walk(parse, a + b).0;
    case Got(item, n) =>
      assert parse(a + b) == parse(a);
      assert (a + b)[n..] == a[n..] + b;
      WalkAppend(parse, a[n..], b);
      var (items, rest) := Walk(parse, a[n..]);
      assert [item] + (items + Walk(parse, rest + b).0) == [item] + items + Walk(parse, rest + b).0;
  }

  /** The reader as a machine: bytes arrive in chunks, each arrival walks what is buffered. */
  ghost function Feed<U>(parse: bytes -> Cut<U>, rest: bytes, chunks: seq<bytes>): (seq<U>, bytes)
    decreases |chunks|
  {
    if chunks == [] then ([], rest) else
      var (items, left) := Walk(parse, rest + chunks[0]);
      var (more, last) := Feed(parse, left, chunks[1..]);
      (items + more, last)
  }

  /** However a stream is cut into chunks, a stable reader sees the units of the flat stream. */
  lemma {:induction false} ChunkingIsInvisible<U(!new)>(parse: bytes -> Cut<U>, rest: bytes, chunks: seq<bytes>)
    requires Stable(parse) && parse(rest).Need?
    ensures Feed(parse, rest, chunks) == Walk(parse, rest + Concat(chunks))
    decreases |chunks|
  {
    if chunks == [] {
      assert rest + Concat(chunks) == rest;
    } else {
      var (items, left) := Walk(parse, rest + chunks[0]);
      WalkStops(parse, rest + chunks[0]);
      ChunkingIsInvisible(parse, left, chunks[1..]);
      assert rest + Concat(chunks) == (rest + chunks[0]) + Concat(chunks[1..]);
      WalkAppend(parse, rest + chunks[0], Concat(chunks[1..]));
    }
  }

  /** If `wire` gives an encoding that `parse` reads back in front of anything, so does the walk. */
  lemma {:induction false} WalkInverts<U(!new), V>(parse: bytes -> Cut<V>, wire: U -> bytes, read: U -> V,
                                          items: seq<U>, tail: bytes)
    requires forall u, rest {:trigger wire(u) + rest} ::
               u in items ==> parse(wire(u) + rest) == Got(read(u), |wire(u)|) && wire(u) != []
    requires parse(tail).Need?
    ensures Walk(parse, Concat(Map(wire, items)) + tail) == (Map(read, items), tail)
  {
    if items == [] {
      assert Concat(Map(wire, items)) + tail == tail;
    } else {
      var first, others := wire(items[0]), Concat(Map(wire, items[1..])) + tail;
      assert Map(wire, items)[1..] == Map(wire, items[1..]);
      assert Concat(Map(wire, items)) + tail == first + others;
      assert (first + others)[|first|..] == others;
      WalkInverts(parse, wire, read, items[1..], tail);
      assert [read(items[0])] + Map(read, items[1..]) == Map(read, items);
    }
  }

  function Map<U, V>(f: U -> V, items: seq<U>): (r: seq<V>)
    ensures |r| == |items| && forall i :: 0 <= i < |items| ==> r[i] == f(items[i])
  {
    seq(|items|, i requires 0 <= i < |items| => f(items[i]))
  }
}
