/** Finding the end of the HTTP request head (src/node/http.js). */
module HttpHead {
  import opened Bytes

  /** CR LF CR LF stands at position `i`. */
  predicate EndsAt(buf: bytes, i: nat) {
    i + 4 <= |buf| && buf[i..i + 4] == [0x0d, 0x0a, 0x0d, 0x0a]
  }

  /** `eoh` is where the head ends: the first terminator at or after `from`, or -1 when there is none. */
  ghost predicate IsHeadEnd(buf: bytes, from: int, eoh: int) {
    var lo := if from < 0 then 0 else from;
    && (eoh == -1 || (lo <= eoh && EndsAt(buf, eoh)))
    && (forall i: nat :: lo <= i && (eoh == -1 || i < eoh) ==> !EndsAt(buf, i))
  }

  /** The scan, as a function of what is left to look at. */
  function HeadEnd(buf: bytes, from: nat): (eoh: int)
    ensures IsHeadEnd(buf, from, eoh)
    decreases |buf| - from
  {
    if from + 4 > |buf| then -1
    else if EndsAt(buf, from) then from
    else HeadEnd(buf, from + 1)
  }

  method IndexOfHeaderEnd(buf: bytes, from: int) returns (eoh: int)
    ensures IsHeadEnd(buf, from, eoh)
    ensures eoh == HeadEnd(buf, if from < 0 then 0 else from)
  {
    var limit := |buf| - 3;
    var i := if from < 0 then 0 else from;
    while i < limit
      invariant 0 <= i
      invariant forall k: nat :: (if from < 0 then 0 else from) <= k < i ==> !EndsAt(buf, k)
    {
      if buf[i] == 0x0d && buf[i + 1] == 0x0a && buf[i + 2] == 0x0d && buf[i + 3] == 0x0a {
        assert buf[i..i + 4] == [buf[i], buf[i + 1], buf[i + 2], buf[i + 3]];
        HeadEndUnique(buf, from, i);
        return i;
      }
      assert !EndsAt(buf, i);
      i := i + 1;
    }
    HeadEndUnique(buf, from, -1);
    return -1;
  }

  lemma HeadEndUnique(buf: bytes, from: int, eoh: int)
    requires IsHeadEnd(buf, from, eoh)
    ensures eoh == HeadEnd(buf, if from < 0 then 0 else from)
  {
    var other := HeadEnd(buf, if from < 0 then 0 else from);
    assert IsHeadEnd(buf, from, other);
  }

  /** A head end that has been found stays where it is when more bytes arrive. */
  lemma HeadEndStable(a: bytes, b: bytes)
    requires HeadEnd(a, 0) != -1
    ensures HeadEnd(a + b, 0) == HeadEnd(a, 0)
  {
    var e := HeadEnd(a, 0);
    assert (a + b)[e..e + 4] == a[e..e + 4];
    forall i: nat | i < e
      ensures !EndsAt(a + b, i)
    {
      assert !EndsAt(a, i) && (a + b)[i..i + 4] == a[i..i + 4];
    }
    HeadEndUnique(a + b, 0, e);
  }

  /** A prefix has no head end exactly when it stops short of the terminator of the whole. */
  lemma HeadEndOfPrefix(a: bytes, b: bytes)
    ensures var e := HeadEnd(a + b, 0);
            HeadEnd(a, 0) == -1 <==> e == -1 || |a| < e + 4
  {
    var e := HeadEnd(a + b, 0);
    if HeadEnd(a, 0) != -1 {
      HeadEndStable(a, b);
    } else if e != -1 && |a| >= e + 4 {
      assert (a + b)[e..e + 4] == a[e..e + 4];
      assert EndsAt(a, e);
    }
  }
}
