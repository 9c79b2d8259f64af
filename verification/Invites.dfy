/** Provisioning invites: signed tokens, and the store that makes them single use (src/node/tokens.js). */
module Invites {
  import opened FiniteSets
  import opened Options
  import opened Names

  /**
   What the model leaves open: the MAC under the invite key, the JavaScript reading of a number (None
   when it is not a safe integer), and which labels can still be redeemed.
   */
  datatype Env = Env(sign: string -> string, number: string -> Option<int>, redeemable: string -> bool)

  const MAX_TOKEN := 200

  datatype Verdict = Forged | Stale(user: string, nonce: string) | Good(user: string, exp: int, nonce: string)

  /** Where the last dot stands, or -1. */
  function LastDot(s: string): (cut: int)
    ensures -1 <= cut < |s|
    ensures cut >= 0 ==> s[cut] == '.'
    ensures '.' !in s[cut + 1..]
  {
    if s == "" then -1
    else if s[|s| - 1] == '.' then |s| - 1
    else
      var cut := LastDot(s[..|s| - 1]);
      TailSnoc(s, cut + 1);
      cut
  }

  lemma TailSnoc(s: string, from: nat)
    requires from < |s|
    ensures s[from..] == s[..|s| - 1][from..] + [s[|s| - 1]]
  {
  }

  /** Body and MAC of a token, split at its last dot; None when it is malformed. */
  function SplitMac(token: string, maxLen: nat): Option<(string, string)> {
    if |token| < 8 || |token| > maxLen then None else
    var cut := LastDot(token);
    if cut <= 0 || cut == |token| - 1 then None else Some((token[..cut], token[cut + 1..]))
  }

  /** What a token with a valid MAC says; nothing is parsed before the MAC has been checked. */
  function Signed(env: Env, token: string): Option<(string, int, string)> {
    match SplitMac(token, MAX_TOKEN)
    case None => None
    case Some((body, mac)) =>
      if mac != env.sign(body) then None else
      var fields := Split(body, '.');
      if |fields| != 4 || fields[0] != "1" || env.number(fields[1]).None? || fields[2] == "" || fields[3] == ""
      then None else Some((fields[2], env.number(fields[1]).value, fields[3]))
  }

  /** Clock readings are in milliseconds, expiry in seconds. */
  function Verify(env: Env, token: string, nowMs: nat): Verdict {
    match Signed(env, token)
    case None => Forged
    case Some((user, exp, nonce)) => if exp <= nowMs / 1000 then Stale(user, nonce) else Good(user, exp, nonce)
  }

  function Body(exp: nat, user: string, nonce: string): string {
    Join(["1", Numeral(exp, 10), user, nonce], ".")
  }

  function Mint(env: Env, user: string, ttl: nat, nonce: string, nowMs: nat): (string, nat) {
    var exp := nowMs / 1000 + ttl;
    (Body(exp, user, nonce) + "." + env.sign(Body(exp, user, nonce)), exp)
  }

  /** Number.MAX_SAFE_INTEGER + 1 */
  const UNSAFE := 0x20_0000_0000_0000

  /** The MAC is 22 characters of an alphabet without dots, and exactly the safe integers read back as printed. */
  ghost predicate Sound(env: Env) {
    && (forall body :: |env.sign(body)| == 22 && '.' !in env.sign(body))
    && (forall n: nat :: env.number(Numeral(n, 10)) == if n < UNSAFE then Some(n) else None)
  }

  lemma LastDotAt(head: string, tail: string)
    requires '.' !in tail
    ensures LastDot(head + "." + tail) == |head|
  {
    var s, cut := head + "." + tail, LastDot(head + "." + tail);
    assert s[|head|] == '.' && s[|head| + 1..] == tail;
  }

  lemma BodyFields(exp: nat, user: string, nonce: string)
    requires '.' !in user && '.' !in nonce
    ensures Split(Body(exp, user, nonce), '.') == ["1", Numeral(exp, 10), user, nonce]
    ensures |Body(exp, user, nonce)| >= 5
  {
    NumeralDigits(exp, 10);
    var parts := ["1", Numeral(exp, 10), user, nonce];
    assert "." == ['.'];
    SplitJoin(parts, '.');
    JoinLength(parts);
  }

  lemma JoinLength(parts: seq<string>)
    requires |parts| == 4
    ensures |Join(parts, ".")| == |parts[0]| + |parts[1]| + |parts[2]| + |parts[3]| + 3
  {
    var b, c, d := parts[1..], parts[1..][1..], parts[1..][1..][1..];
    assert Join(d, ".") == parts[3] && Join(c, ".") == parts[2] + "." + parts[3];
    assert Join(b, ".") == parts[1] + "." + Join(c, ".");
  }

  /**
   A minted token is the four fields with dots between them and the MAC of that behind another dot; it verifies
   as what it was minted for until its time to live is over, to the second, and never as anything else.  A token
   too long for the verifier, and one whose expiry is no safe integer, are the exceptions.
   */
  lemma MintedVerifies(env: Env, user: string, ttl: nat, nonce: string, mintedAt: nat, nowMs: nat)
    requires Sound(env) && user != "" && nonce != "" && '.' !in user && '.' !in nonce
    ensures var exp := mintedAt / 1000 + ttl;
            var body := "1." + Numeral(exp, 10) + "." + user + "." + nonce;
            var token := Mint(env, user, ttl, nonce, mintedAt).0;
            && token == body + "." + env.sign(body)
            && Verify(env, token, nowMs) ==
                 (if |token| > 200 || exp >= UNSAFE then Forged
                  else if nowMs / 1000 < mintedAt / 1000 + ttl then Good(user, exp, nonce) else Stale(user, nonce))
  {
    hide Signed, Body, Sound;
    var exp := mintedAt / 1000 + ttl;
    BodyIs(exp, user, nonce);
    MintedSigned(env, user, exp, nonce);
  }

  lemma BodyIs(exp: nat, user: string, nonce: string)
    ensures Body(exp, user, nonce) == "1." + Numeral(exp, 10) + "." + user + "." + nonce
  {
    hide Numeral;
    var n := Numeral(exp, 10);
    var d, cd, bcd, all := [nonce], [user, nonce], [n, user, nonce], ["1", n, user, nonce];
    assert all[1..] == bcd && bcd[1..] == cd && cd[1..] == d;
    assert Join(cd, ".") == user + "." + nonce && Join(bcd, ".") == n + "." + Join(cd, ".");
    assert Join(all, ".") == "1" + "." + Join(bcd, ".");
    hide Join;
  }

  lemma MintedSigned(env: Env, user: string, exp: nat, nonce: string)
    requires Sound(env) && user != "" && nonce != "" && '.' !in user && '.' !in nonce
    ensures var token := Body(exp, user, nonce) + "." + env.sign(Body(exp, user, nonce));
            Signed(env, token) == if |token| > MAX_TOKEN || exp >= UNSAFE then None else Some((user, exp, nonce))
  {
    hide Body, Split, LastDot, Numeral, Join, SplitMac;
    var body := Body(exp, user, nonce);
    var mac := env.sign(body);
    BodyFields(exp, user, nonce);
    assert |mac| == 22 && '.' !in mac && env.number(Numeral(exp, 10)) == if exp < UNSAFE then Some(exp) else None;
    hide Sound;
    MacSplitsOff(body, mac);
  }

  lemma MacSplitsOff(body: string, mac: string)
    requires body != "" && |mac| == 22 && '.' !in mac
    ensures var token := body + "." + mac; SplitMac(token, MAX_TOKEN) == if |token| > MAX_TOKEN then None
            else Some((body, mac))
  {
    LastDotAt(body, mac);
    hide LastDot;
    var token := body + "." + mac;
    assert token[..|body|] == body && token[|body| + 1..] == mac;
  }

  lemma {:induction false} NumeralLength(n: nat, digits: nat, bound: nat)
    requires n < bound && bound == Power(10, digits) && digits > 0
    ensures |Numeral(n, 10)| <= digits
    decreases digits
  {
    if n < 10 {
    } else {
      assert digits > 1;
      NumeralLength(n / 10, digits - 1, Power(10, digits - 1));
    }
  }

  function Power(base: nat, n: nat): nat {
    if n == 0 then 1 else base * Power(base, n - 1)
  }

  /**
   What the server mints is never too long for it to verify: labels have at most 32 characters, nonces
   eight, and an expiry is below 10^16 for the next three hundred million years.
   */
  lemma MintedFits(env: Env, user: string, ttl: nat, nonce: string, mintedAt: nat)
    requires Sound(env) && |user| <= 32 && |nonce| == 8
    requires mintedAt / 1000 + ttl < 1_0000_0000_0000_0000
    ensures |Mint(env, user, ttl, nonce, mintedAt).0| <= MAX_TOKEN
  {
    var exp := mintedAt / 1000 + ttl;
    TenToThe16();
    NumeralLength(exp, 16, 1_0000_0000_0000_0000);
    JoinLength(["1", Numeral(exp, 10), user, nonce]);
  }

  lemma TenToThe16()
    ensures Power(10, 16) == 1_0000_0000_0000_0000
  {
    assert Power(10, 4) == 10000;
    assert Power(10, 8) == 10000 * 10000;
    assert Power(10, 12) == 1_0000_0000 * 10000;
  }

  /** Comparing whole seconds is comparing milliseconds with the expiry. */
  lemma ExpiryIsExact(exp: int, nowMs: nat)
    ensures exp <= nowMs / 1000 <==> exp * 1000 <= nowMs
  {
  }

  /** Nothing verifies but a body of that form followed by its own MAC. */
  lemma VerifiedWasSigned(env: Env, token: string)
    requires Signed(env, token).Some?
    ensures var (user, exp, nonce) := Signed(env, token).value;
            exists field :: env.number(field) == Some(exp)
              && token == Join(["1", field, user, nonce], ".") + "." + env.sign(Join(["1", field, user, nonce], "."))
  {
    var (body, mac) := SplitMac(token, MAX_TOKEN).value;
    var fields := Split(body, '.');
    assert "." == ['.'] && fields == ["1", fields[1], fields[2], fields[3]];
    assert token == body + "." + mac;
    assert env.number(fields[1]).Some?;
  }

  // ----- the burn store -----

  datatype Entry = Entry(firstUsedAt: nat, expiresAt: int)

  type Seen = map<string, Entry>

  function Sweep(s: Seen, now: nat): Seen {
    map n | n in s && s[n].expiresAt > now :: s[n]
  }

  function Claim(s: Seen, max: nat, nonce: string, expiresAtMs: int, graceMs: nat, now: nat): (Seen, bool) {
    if nonce in s then (s, now - s[nonce].firstUsedAt < graceMs) else
    var swept := if |s| >= max then Sweep(s, now) else s;
    if |swept| >= max then (swept, false) else (swept[nonce := Entry(now, expiresAtMs)], true)
  }

  class BurnStore {
    const max: nat
    var seen: Seen

    constructor (max: nat)
      ensures this.max == max && seen == map[]
    {
      this.max := max;
      seen := map[];
    }

    method SweepExpired(now: nat)
      modifies this
      ensures seen == Sweep(old(seen), now)
    {
      var todo := seen.Keys;
      while todo != {}
        invariant todo <= old(seen).Keys
        invariant seen == map n | n in old(seen) && (n in todo || old(seen)[n].expiresAt > now) :: old(seen)[n]
      {
        var nonce :| nonce in todo;
        if seen[nonce].expiresAt <= now { seen := seen - {nonce}; }
        todo := todo - {nonce};
      }
    }

    /** The first call for a nonce starts its grace window; later calls succeed only inside it. */
    method TryClaim(nonce: string, expiresAtMs: int, graceMs: nat, now: nat) returns (ok: bool)
      modifies this
      ensures (seen, ok) == Claim(old(seen), max, nonce, expiresAtMs, graceMs, now)
    {
      if nonce in seen { return now - seen[nonce].firstUsedAt < graceMs; }
      if |seen| >= max { SweepExpired(now); }
      if |seen| >= max { return false; }
      seen := seen[nonce := Entry(now, expiresAtMs)];
      return true;
    }
  }

  // ----- redemption -----

  /** One request: the token is verified and then claimed, each with its own reading of the clock. */
  datatype Attempt = Attempt(token: string, verifyAt: nat, claimAt: nat)

  datatype Store = Store(max: nat, graceMs: nat)

  function Redeem(env: Env, store: Store, s: Seen, a: Attempt): (Seen, Option<string>) {
    match Verify(env, a.token, a.verifyAt)
    case Forged => (s, None)
    case Stale(_, _) => (s, None)
    case Good(user, exp, nonce) =>
      if !env.redeemable(user) then (s, None) else
      var (t, ok) := Claim(s, store.max, nonce, exp * 1000, store.graceMs, a.claimAt);
      (t, if ok then Some(nonce) else None)
  }

  ghost function After(env: Env, store: Store, attempts: seq<Attempt>): Seen
    decreases |attempts|
  {
    if attempts == [] then map[]
    else Redeem(env, store, After(env, store, attempts[..|attempts| - 1]), attempts[|attempts| - 1]).0
  }

  /** The nonce that attempt `i` redeemed, if it did. */
  ghost function Redeemed(env: Env, store: Store, attempts: seq<Attempt>, i: nat): Option<string>
    requires i < |attempts|
  {
    Redeem(env, store, After(env, store, attempts[..i]), attempts[i]).1
  }

  /** Clock readings never go back, within an attempt or from one to the next. */
  ghost predicate Monotone(attempts: seq<Attempt>) {
    && (forall i | 0 <= i < |attempts| :: attempts[i].verifyAt <= attempts[i].claimAt)
    && (forall i, j | 0 <= i < j < |attempts| :: attempts[i].claimAt <= attempts[j].verifyAt)
  }

  /** Each nonce was minted once, so all tokens that carry it expire together. */
  ghost predicate MintedOnce(env: Env, attempts: seq<Attempt>, expiry: map<string, int>) {
    forall i | 0 <= i < |attempts| && Signed(env, attempts[i].token).Some? ::
      var (user, exp, nonce) := Signed(env, attempts[i].token).value; nonce in expiry && expiry[nonce] == exp
  }

  /** When a nonce was first redeemed. */
  ghost function FirstUse(env: Env, store: Store, attempts: seq<Attempt>, nonce: string): Option<nat>
    decreases |attempts|
  {
    if attempts == [] then None else
    var n := |attempts| - 1;
    var before := FirstUse(env, store, attempts[..n], nonce);
    if before.Some? then before
    else if Redeemed(env, store, attempts, n) == Some(nonce) then Some(attempts[n].claimAt) else None
  }

  /** A nonce that has been used is remembered, or it has expired and can never verify again. */
  ghost predicate Remembers(s: Seen, first: Option<nat>, nonce: string, expiry: map<string, int>, now: nat) {
    match first
    case None => nonce !in s
    case Some(used) =>
      if nonce in s then s[nonce].firstUsedAt == used && nonce in expiry && s[nonce].expiresAt == expiry[nonce] * 1000
      else nonce in expiry && expiry[nonce] * 1000 <= now
  }

  lemma RedeemRemembers(env: Env, store: Store, s: Seen, a: Attempt, nonce: string, expiry: map<string, int>,
                        first: Option<nat>, last: nat)
    requires Remembers(s, first, nonce, expiry, last) && last <= a.verifyAt <= a.claimAt
    requires Signed(env, a.token).Some? ==>
               Signed(env, a.token).value.2 in expiry
                 && expiry[Signed(env, a.token).value.2] == Signed(env, a.token).value.1
    ensures var (t, got) := Redeem(env, store, s, a);
            && Remembers(t, if first.None? && got == Some(nonce) then Some(a.claimAt) else first,
                         nonce, expiry, a.claimAt)
            && (got == Some(nonce) && first.Some? ==> a.claimAt - first.value < store.graceMs)
  {
    if Signed(env, a.token).Some? {
      ExpiryIsExact(Signed(env, a.token).value.1, a.verifyAt);
    }
    hide Signed;
  }

  ghost function ClockAfter(attempts: seq<Attempt>): nat {
    if attempts == [] then 0 else attempts[|attempts| - 1].claimAt
  }

  /** A redemption comes at the first use of its nonce or less than the grace period after it. */
  ghost predicate InGrace(store: Store, first: Option<nat>, at: nat) {
    first.Some? && first.value <= at && (first.value < at ==> at - first.value < store.graceMs)
  }

  lemma PrefixFits(env: Env, attempts: seq<Attempt>, expiry: map<string, int>, n: nat)
    requires Monotone(attempts) && MintedOnce(env, attempts, expiry) && n <= |attempts|
    ensures Monotone(attempts[..n]) && MintedOnce(env, attempts[..n], expiry)
  {
    hide Signed;
    assert forall i | 0 <= i < n :: attempts[..n][i] == attempts[i];
  }

  /** After any run a nonce that was redeemed is remembered with its first use, or can never verify again. */
  lemma {:induction false} RunRemembers(env: Env, store: Store, attempts: seq<Attempt>, nonce: string,
                                        expiry: map<string, int>)
    requires Monotone(attempts) && MintedOnce(env, attempts, expiry)
    ensures Remembers(After(env, store, attempts), FirstUse(env, store, attempts, nonce), nonce, expiry,
              ClockAfter(attempts))
    decreases |attempts|
  {
    if attempts == [] {
    } else {
      PrefixFits(env, attempts, expiry, |attempts| - 1);
      hide Monotone, MintedOnce, Remembers, After, FirstUse;
      RunRemembers(env, store, attempts[..|attempts| - 1], nonce, expiry);
      LastRemembers(env, store, attempts, nonce, expiry);
    }
  }

  lemma {:induction false} RedeemedInGrace(env: Env, store: Store, attempts: seq<Attempt>, nonce: string,
                                           expiry: map<string, int>, i: nat)
    requires Monotone(attempts) && MintedOnce(env, attempts, expiry)
    requires i < |attempts| && Redeemed(env, store, attempts, i) == Some(nonce)
    ensures InGrace(store, FirstUse(env, store, attempts, nonce), attempts[i].claimAt)
    decreases |attempts|
  {
    var n := |attempts| - 1;
    var before := attempts[..n];
    PrefixFits(env, attempts, expiry, n);
    hide Monotone, MintedOnce, Remembers, After, FirstUse, Redeem;
    if i == n {
      RunRemembers(env, store, before, nonce, expiry);
      LastRemembers(env, store, attempts, nonce, expiry);
    } else {
      assert attempts[..i] == before[..i];
      RedeemedInGrace(env, store, before, nonce, expiry, i);
      EarlierStays(env, store, attempts, nonce);
    }
  }

  lemma EarlierStays(env: Env, store: Store, attempts: seq<Attempt>, nonce: string)
    requires attempts != [] && FirstUse(env, store, attempts[..|attempts| - 1], nonce).Some?
    ensures FirstUse(env, store, attempts, nonce) == FirstUse(env, store, attempts[..|attempts| - 1], nonce)
  {
  }

  /** One more attempt, behind a run whose nonce is remembered. */
  lemma LastRemembers(env: Env, store: Store, attempts: seq<Attempt>, nonce: string, expiry: map<string, int>)
    requires attempts != [] && Monotone(attempts) && MintedOnce(env, attempts, expiry)
    requires var before := attempts[..|attempts| - 1];
             Remembers(After(env, store, before), FirstUse(env, store, before, nonce), nonce, expiry,
                 ClockAfter(before))
    ensures Remembers(After(env, store, attempts), FirstUse(env, store, attempts, nonce), nonce, expiry,
              ClockAfter(attempts))
    ensures Redeemed(env, store, attempts, |attempts| - 1) == Some(nonce) ==>
              InGrace(store, FirstUse(env, store, attempts, nonce), attempts[|attempts| - 1].claimAt)
  {
    var n := |attempts| - 1;
    var before, a := attempts[..n], attempts[n];
    FirstUseIsPast(env, store, before, nonce);
    RedeemRemembers(env, store, After(env, store, before), a, nonce, expiry, FirstUse(env, store, before, nonce),
        ClockAfter(before));
    hide Redeem, Remembers, Signed;
  }

  lemma {:induction false} FirstUseIsPast(env: Env, store: Store, attempts: seq<Attempt>, nonce: string)
    ensures var first := FirstUse(env, store, attempts, nonce);
            first.Some? ==> exists i :: 0 <= i < |attempts| && attempts[i].claimAt == first.value
    decreases |attempts|
  {
    if attempts == [] {
    } else {
      var n := |attempts| - 1;
      FirstUseIsPast(env, store, attempts[..n], nonce);
      if FirstUse(env, store, attempts[..n], nonce).Some? {
        var i :| 0 <= i < n && attempts[..n][i].claimAt == FirstUse(env, store, attempts[..n], nonce).value;
        assert attempts[i] == attempts[..n][i];
      }
    }
  }

  /**
   Redemptions of one nonce all fall within the grace window of the first, although the store forgets
   nonces when it is swept: one it has forgotten can no longer be verified.
   */
  lemma RedeemedWithinGrace(env: Env, store: Store, attempts: seq<Attempt>, expiry: map<string, int>, i: nat, j: nat)
    requires Monotone(attempts) && MintedOnce(env, attempts, expiry) && i < j < |attempts|
    requires Redeemed(env, store, attempts, i).Some?
    requires Redeemed(env, store, attempts, i) == Redeemed(env, store, attempts, j)
    requires store.graceMs > 0
    ensures attempts[j].claimAt - attempts[i].claimAt < store.graceMs
  {
    var nonce := Redeemed(env, store, attempts, i).value;
    RedeemedInGrace(env, store, attempts, nonce, expiry, i);
    RedeemedInGrace(env, store, attempts, nonce, expiry, j);
    hide Redeemed, FirstUse, MintedOnce;
  }

  // ----- the converse -----

  /** The store is full of nonces that have not expired. */
  ghost predicate Crowded(s: Seen, max: nat, now: nat) {
    |s| == max && forall n <- s :: s[n].expiresAt > now
  }

  lemma CrowdedIff(s: Seen, max: nat, now: nat)
    requires |s| <= max
    ensures |s| >= max && |Sweep(s, now)| >= max <==> Crowded(s, max, now)
    ensures |Sweep(s, now)| <= |s|
  {
    var swept := Sweep(s, now);
    assert |swept| == |swept.Keys| && |s| == |s.Keys| && swept.Keys <= s.Keys;
    SubsetIsNoLarger(swept.Keys, s.Keys);
    if n :| n in s && n !in swept {
      SubsetIsNoLarger(swept.Keys, s.Keys - {n});
    } else {
      assert swept.Keys == s.Keys;
    }
  }

  lemma RedeemStaysSmall(env: Env, store: Store, s: Seen, a: Attempt)
    requires |s| <= store.max
    ensures |Redeem(env, store, s, a).0| <= store.max
  {
    CrowdedIff(s, store.max, a.claimAt);
    hide Verify, Sweep;
  }

  /** The store never outgrows its bound. */
  lemma {:induction false} StoreStaysSmall(env: Env, store: Store, attempts: seq<Attempt>)
    ensures |After(env, store, attempts)| <= store.max
    decreases |attempts|
  {
    if attempts == [] {
    } else {
      var n := |attempts| - 1;
      StoreStaysSmall(env, store, attempts[..n]);
      RedeemStaysSmall(env, store, After(env, store, attempts[..n]), attempts[n]);
      hide Redeem;
    }
  }

  /**
   Exactly the attempts with a good token for someone who may still redeem succeed that are the first of their
   nonce, when the store is not full of unexpired ones, or come within the grace period of the first.
   */
  lemma RedeemedIff(env: Env, store: Store, attempts: seq<Attempt>, expiry: map<string, int>, i: nat)
    requires Monotone(attempts) && MintedOnce(env, attempts, expiry) && i < |attempts|
    ensures var a, before := attempts[i], attempts[..i];
            var verdict := Verify(env, a.token, a.verifyAt);
            Redeemed(env, store, attempts, i) ==
            if verdict.Good? && env.redeemable(verdict.user) && MayClaim(env, store, before, verdict.nonce, a.claimAt)
            then Some(verdict.nonce) else None
  {
    var a, before := attempts[i], attempts[..i];
    var s := After(env, store, before);
    var verdict := Verify(env, a.token, a.verifyAt);
    if verdict.Good? {
      PrefixFits(env, attempts, expiry, i);
      RunRemembers(env, store, before, verdict.nonce, expiry);
      StoreStaysSmall(env, store, before);
      CrowdedIff(s, store.max, a.claimAt);
      ExpiryIsExact(verdict.exp, a.verifyAt);
      ClockIsBefore(attempts, i);
      assert Signed(env, a.token) == Some((verdict.user, verdict.exp, verdict.nonce));
    }
    hide After, FirstUse, Signed, Monotone, Sweep;
  }

  lemma ClockIsBefore(attempts: seq<Attempt>, i: nat)
    requires Monotone(attempts) && i < |attempts|
    ensures ClockAfter(attempts[..i]) <= attempts[i].verifyAt <= attempts[i].claimAt
  {
  }

  /** By what happened before, a claim of this nonce at this time succeeds. */
  ghost predicate MayClaim(env: Env, store: Store, before: seq<Attempt>, nonce: string, now: nat) {
    match FirstUse(env, store, before, nonce)
    case Some(first) => now - first < store.graceMs
    case None => !Crowded(After(env, store, before), store.max, now)
  }
}
