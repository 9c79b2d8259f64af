/**
 The chunked byte queue every parser reads from (src/vless.js).  The queue is a list of
 chunks, and `Contents` is the flat byte string it stands for: each operation is specified on
 `Contents` alone, so no client can see where the chunk boundaries are.
 */
module Queues {
  import opened Bytes
  import opened Options

  /** The window of `n` bytes after the first `skip`. */
  ghost function Window(s: bytes, skip: nat, n: nat): bytes
    requires skip + n <= |s|
  {
    s[skip..skip + n]
  }

  /** A window past the first part is the same window of the rest. */
  lemma SkipPart(part: bytes, tail: bytes, skip: nat, n: nat)
    requires |part| <= skip && skip + n <= |part + tail|
    ensures Window(part + tail, skip, n) == Window(tail, skip - |part|, n)
  {
  }

  /** A window that starts inside the first part is a piece of it, then the head of the rest. */
  lemma TakePart(got: bytes, part: bytes, tail: bytes, skip: nat, n: nat, take: nat)
    requires skip < |part| && skip + n <= |part + tail| && take == Min(|part| - skip, n)
    ensures got + Window(part + tail, skip, n) == got + part[skip..skip + take] + Window(tail, 0, n - take)
  {
  }

  lemma Finish(got: bytes, tail: bytes, skip: nat, want: bytes)
    requires skip <= |tail| && got + Window(tail, skip, 0) == want
    ensures got == want
  {
  }

  /** The next piece of a buffer that is filled from the front. */
  method PutBehind(out: array<byte>, ghost got: bytes, piece: bytes, offset: nat)
    requires offset == |got| && offset + |piece| <= out.Length && out[..offset] == got
    modifies out
    ensures out[..offset + |piece|] == got + piece
  {
    Put(out, piece, offset);
  }

  class ByteQueue {
    var parts: seq<bytes>
    var size: nat

    ghost predicate Valid()
      reads this
    {
      size == |Concat(parts)| && forall i :: 0 <= i < |parts| ==> parts[i] != []
    }

    ghost function Contents(): bytes
      reads this
    {
      Concat(parts)
    }

    constructor ()
      ensures Valid() && Contents() == []
    {
      parts, size := [], 0;
    }

    method Push(chunk: bytes)
      requires Valid()
      modifies this
      ensures Valid() && Contents() == old(Contents()) + chunk
    {
      if |chunk| == 0 { return; }
      ConcatSnoc(parts, chunk);
      parts := parts + [chunk];
      size := size + |chunk|;
    }

    /** The byte at an absolute index, found without merging the parts. */
    method At(index: int) returns (b: Option<byte>)
      requires Valid()
      ensures b == if 0 <= index < |Contents()| then Some(Contents()[index]) else None
    {
      if index < 0 || index >= size { return None; }
      var i, p := index, 0;
      while p < |parts|
        invariant 0 <= p <= |parts| && 0 <= i < |Concat(parts[p..])|
        invariant Concat(parts[p..])[i] == Contents()[index]
      {
        var part := parts[p];
        ConcatHead(parts, p);
        if i < |part| { return Some(part[i]); }
        i := i - |part|;
        p := p + 1;
      }
      return None;
    }

    /** A copy of `[start, end)`, assembled across part boundaries and clamped to the queue. */
    method Slice(start: int, end: int) returns (copy: bytes)
      requires Valid()
      ensures var lo, hi := if start < 0 then 0 else start, Min(end, |Contents()|);
              copy == if hi <= lo then [] else Contents()[lo..hi]
    {
      var hi := if end > size then size else end;
      var lo := if start < 0 then 0 else start;
      if hi <= lo { return []; }

      var out := new byte[hi - lo];
      var offset, skip, remaining := 0, lo, hi - lo;
      var p := 0;
      ghost var got, tail := [], Concat(parts);
      ghost var want := Window(tail, lo, hi - lo);
      assert parts[0..] == parts && Concat(parts[|parts|..]) == [] && size == |tail|;
      hide *;
      while p < |parts| && remaining > 0
        invariant 0 <= p <= |parts| && 0 <= skip && 0 <= remaining && tail == Concat(parts[p..])
        invariant offset + remaining == hi - lo == out.Length && offset == |got| && out[..offset] == got
        invariant skip + remaining <= |tail| && got + Window(tail, skip, remaining) == want
      {
        var part := parts[p];
        ConcatHead(parts, p);
        tail := Concat(parts[p + 1..]);
        if skip >= |part| {
          SkipPart(part, tail, skip, remaining);
          skip := skip - |part|;
        } else {
          var take := Min(|part| - skip, remaining);
          var piece := part[skip..skip + take];
          TakePart(got, part, tail, skip, remaining, take);
          PutBehind(out, got, piece, offset);
          got := got + piece;
          offset, remaining, skip := offset + take, remaining - take, 0;
        }
        p := p + 1;
      }
      Finish(got, tail, skip, want);
      assert out[..] == got;
      return out[..];
    }

    /** A contiguous view of everything queued, memoized back into the queue. */
    method Flatten() returns (view: bytes)
      requires Valid()
      modifies this
      ensures Valid() && Contents() == old(Contents()) && view == Contents()
    {
      if size == 0 { return []; }
      if |parts| == 1 {
        ConcatOne(parts[0]);
        assert parts == [parts[0]];
        return parts[0];
      }
      var out := new byte[size];
      var off, i := 0, 0;
      ghost var got, tail := [], Concat(parts);
      assert parts[0..] == parts && [] + tail == tail && Concat(parts[|parts|..]) == [];
      assert size == |tail|;
      hide Concat;
      while i < |parts|
        invariant 0 <= i <= |parts| && tail == Concat(parts[i..]) && got + tail == Concat(parts)
        invariant off == |got| && off + |tail| == out.Length && out[..off] == got
        invariant parts == old(parts) && size == old(size)
      {
        ConcatHead(parts, i);
        tail := Concat(parts[i + 1..]);
        assert got + (parts[i] + tail) == got + parts[i] + tail;
        PutBehind(out, got, parts[i], off);
        got := got + parts[i];
        off := off + |parts[i]|;
        i := i + 1;
      }
      view := out[..];
      assert view == out[..off] == got + tail;
      ConcatOne(view);
      parts := [view];
    }

    method Consume(n: int)
      requires Valid()
      modifies this
      ensures Valid()
      ensures Contents() == if n <= 0 then old(Contents())
                            else if n >= |old(Contents())| then []
                            else old(Contents())[n..]
    {
      if n <= 0 { return; }
      if n >= size { Clear(); return; }
      var skip := n;
      ghost var was := Contents();
      while |parts| > 0 && skip >= |parts[0]|
        invariant 0 <= skip < |Concat(parts)| && Concat(parts)[skip..] == was[n..]
        invariant forall i :: 0 <= i < |parts| ==> parts[i] != []
        invariant size == old(size)
      {
        skip := skip - |parts[0]|;
        parts := parts[1..];
      }
      if skip > 0 && |parts| > 0 {
        ghost var was' := Concat(parts);
        parts := [parts[0][skip..]] + parts[1..];
        assert Concat(parts) == was'[skip..];
      }
      size := size - n;
    }

    method Clear()
      modifies this
      ensures Valid() && Contents() == []
    {
      parts, size := [], 0;
    }
  }
}
