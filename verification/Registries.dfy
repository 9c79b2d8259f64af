/** The credentials the server accepts, derived from secrets and labels and indexed by bucket (src/node/users.js). */
module Registries {
  import opened Bytes
  import opened Options
  import opened Uuids
  import N = Names
  import Vless

  /** The 16 bytes that stand for a user on the wire. */
  type Id = b: bytes | |b| == 16 witness seq(16, _ => 0)

  datatype User = User(name: string, id: Id, uuid: string)

  /** HMAC-SHA256 over the tagged label, of which the model assumes only that it gives 32 bytes. */
  datatype Hmac = Hmac(digest: (string, string) -> bytes) {
    ghost predicate Sound() {
      forall secret, text :: |digest(secret, text)| == 32
    }
  }

  const UUID_TAG := "vless-uuid-v1\n"
  const LEGACY_LABEL := "owner"

  function Versioned(mac: Id): Id
  {
    mac[6 := mac[6] % 16 + 64][8 := mac[8] % 64 + 128]
  }

  function DeriveUser(h: Hmac, secret: string, name: string): User
    requires h.Sound()
  {
    var id := Versioned(h.digest(secret, UUID_TAG + name)[..16]);
    User(name, id, FormatUuid(id))
  }

  // ----- what is provisioned -----

  /** One label under every secret, the current secret first. */
  function Derivations(h: Hmac, secrets: seq<string>, name: string): (r: seq<User>)
    requires h.Sound()
    ensures |r| == |secrets| && forall i | 0 <= i < |r| :: r[i] == DeriveUser(h, secrets[i], name)
  {
    if secrets == [] then [] else
    Derivations(h, secrets[..|secrets| - 1], name) + [DeriveUser(h, secrets[|secrets| - 1], name)]
  }

  lemma DerivationsNone(h: Hmac, name: string)
    requires h.Sound()
    ensures Derivations(h, [], name) == []
  {
  }

  lemma DerivationsSnoc(h: Hmac, secrets: seq<string>, j: nat, name: string)
    requires h.Sound() && j < |secrets|
    ensures Derivations(h, secrets[..j + 1], name)
            == Derivations(h, secrets[..j], name) + [DeriveUser(h, secrets[j], name)]
  {
    assert secrets[..j + 1][..j] == secrets[..j];
  }

  function Provisioned(h: Hmac, secrets: seq<string>, labels: seq<string>): seq<User>
    requires h.Sound()
  {
    if labels == [] then [] else
    Provisioned(h, secrets, labels[..|labels| - 1]) + Derivations(h, secrets, labels[|labels| - 1])
  }

  function Usable(secrets: seq<string>): (r: seq<string>)
    ensures forall s <- r :: s != "" && s in secrets
    ensures forall s <- secrets :: s != "" ==> s in r
  {
    if secrets == [] then [] else (if secrets[0] == "" then [] else [secrets[0]]) + Usable(secrets[1..])
  }

  /** Which secrets are usable is decided one by one, and they keep their order. */
  lemma {:induction false} UsableAppend(a: seq<string>, b: seq<string>)
    ensures Usable(a + b) == Usable(a) + Usable(b)
    decreases |a|
  {
    if a == [] {
      assert a + b == b;
    } else {
      var first := if a[0] == "" then [] else [a[0]];
      UsableAppend(a[1..], b);
      assert (a + b)[1..] == a[1..] + b && (a + b)[0] == a[0];
      assert Usable(a + b) == first + Usable(a[1..] + b) && Usable(a) == first + Usable(a[1..]);
      hide Usable;
    }
  }

  lemma UsableOne(s: string)
    ensures Usable([s]) == if s == "" then [] else [s]
  {
    assert [s][1..] == [];
  }

  /**
   Where a derived credential comes from: the first 16 bytes of the MAC of the tag and the label under the secret,
   marked as version 4 and with the variant of RFC 4122, and the text of these bytes.
   */
  lemma DerivedFrom(h: Hmac, secret: string, name: string)
    requires h.Sound()
    ensures var mac, u := h.digest(secret, "vless-uuid-v1\n" + name), DeriveUser(h, secret, name);
            && u.name == name && UuidToBytes(u.uuid) == Some(u.id)
            && (forall i | 0 <= i < 16 && i != 6 && i != 8 :: u.id[i] == mac[i])
            && u.id[6] / 16 == 4 && u.id[6] % 16 == mac[6] % 16 && u.id[8] / 64 == 2 && u.id[8] % 64 == mac[8] % 64
  {
    var u := DeriveUser(h, secret, name);
    UuidRoundTrip(u.id);
    hide UuidToBytes, FormatUuid;
  }

  /** The credentials in the order they are added: the operator's own, then label by label. */
  function Credentials(h: Hmac, owner: Option<User>, secrets: seq<string>, labels: seq<string>): seq<User>
    requires h.Sound()
  {
    (if owner.Some? then [owner.value] else []) + Provisioned(h, secrets, labels)
  }

  /** The credential each label may be given, the operator's own among them. */
  function Current(h: Hmac, owner: Option<User>, secrets: seq<string>, labels: seq<string>): map<string, User>
    requires h.Sound()
  {
    if labels == [] then if owner.Some? then map[LEGACY_LABEL := owner.value] else map[] else
    var n := |labels| - 1;
    var before := Current(h, owner, secrets, labels[..n]);
    if secrets == [] then before else before[labels[n] := DeriveUser(h, secrets[0], labels[n])]
  }

  /** The first of `users` whose 16 bytes are `id`. */
  function FirstMatch(users: seq<User>, id: bytes): Option<User>
    decreases |users|
  {
    if users == [] then None else
    var n := |users| - 1;
    if FirstMatch(users[..n], id).Some? then FirstMatch(users[..n], id)
    else if users[n].id == id then Some(users[n])
    else None
  }

  /** Who the 16 bytes at `off` belong to; bytes beyond the end match no one. */
  function Found(users: seq<User>, payload: bytes, off: nat): Option<User> {
    if off + 16 > |payload| then None else FirstMatch(users, payload[off..off + 16])
  }

  // ----- the index -----

  datatype Bucket = One(user: User) | Many(users: seq<User>) {
    function Users(): seq<User> {
      if One? then [user] else users
    }
  }

  function KeyOf(a: nat, b: nat, c: nat, d: nat): nat {
    a * 16777216 + b * 65536 + c * 256 + d
  }

  /** A byte of a typed array; reading beyond it gives a value that counts as 0 in arithmetic. */
  function At(payload: bytes, i: nat): nat {
    if i < |payload| then payload[i] else 0
  }

  /** First four bytes as an unsigned 32-bit bucket key. */
  function BucketKey(payload: bytes, off: nat): nat {
    KeyOf(At(payload, off), At(payload, off + 1), At(payload, off + 2), At(payload, off + 3))
  }

  /** The users of one bucket, in the order they were added. */
  ghost function WithKey(users: seq<User>, key: nat): seq<User>
    decreases |users|
  {
    if users == [] then [] else
    var n := |users| - 1;
    WithKey(users[..n], key) + if BucketKey(users[n].id, 0) == key then [users[n]] else []
  }

  lemma WithKeySnoc(users: seq<User>, user: User, key: nat)
    ensures WithKey(users + [user], key) == WithKey(users, key) + if BucketKey(user.id, 0) == key then [user] else []
  {
    assert (users + [user])[..|users|] == users;
  }

  /** The operator's credential stands in front of the derived ones. */
  lemma OwnerIsFirst(h: Hmac, owner: Option<User>, secrets: seq<string>, labels: seq<string>)
    requires h.Sound()
    ensures var all := Credentials(h, owner, secrets, labels);
            match owner
            case Some(user) => |all| > 0 && all[0] == user && all[1..] == Provisioned(h, secrets, labels)
            case None => all == Provisioned(h, secrets, labels)
  {
    hide Provisioned;
  }

  /** Which derived credential stands where: label by label, each under one secret after the other. */
  lemma {:induction false} ProvisionedAt(h: Hmac, secrets: seq<string>, labels: seq<string>, i: nat, j: nat)
    requires h.Sound() && i < |labels| && j < |secrets|
    ensures |Provisioned(h, secrets, labels)| == |labels| * |secrets|
    ensures 0 <= i * |secrets| + j < |labels| * |secrets|
    ensures Provisioned(h, secrets, labels)[i * |secrets| + j] == DeriveUser(h, secrets[j], labels[i])
    decreases |labels|
  {
    hide DeriveUser, Derivations;
    var n := |labels| - 1;
    ProvisionedLength(h, secrets, labels[..n]);
    assert |labels| * |secrets| == n * |secrets| + |secrets|;
    if i == n {
    } else {
      ProvisionedAt(h, secrets, labels[..n], i, j);
    }
  }

  lemma {:induction false} ProvisionedLength(h: Hmac, secrets: seq<string>, labels: seq<string>)
    requires h.Sound()
    ensures |Provisioned(h, secrets, labels)| == |labels| * |secrets|
    decreases |labels|
  {
    hide DeriveUser, Derivations;
    if labels == [] {
    } else {
      ProvisionedLength(h, secrets, labels[..|labels| - 1]);
      assert |labels| * |secrets| == (|labels| - 1) * |secrets| + |secrets|;
    }
  }

  class Registry {
    const labels: seq<string>
    const provisioning: bool
    var buckets: map<nat, Bucket>
    var current: map<string, User>
    /** Everything added so far, in order. */
    ghost var added: seq<User>
    /** What the registry was built from. */
    ghost const hmac: Hmac
    ghost const owner: Option<User>
    ghost const secrets: seq<string>

    /** The index holds what has been added, bucket by bucket and in order. */
    ghost predicate Indexed()
      reads this
    {
      forall key: nat :: WithKey(added, key) == if key in buckets then buckets[key].Users() else []
    }

    /** The registry is complete: indexed, and holding what it was built from. */
    ghost predicate Valid()
      reads this
    {
      && Indexed() && hmac.Sound()
      && added == Credentials(hmac, owner, secrets, labels)
      && current == Current(hmac, owner, secrets, labels)
      && (provisioning <==> secrets != [])
    }

    constructor (h: Hmac, owner: Option<User>, secrets: seq<string>, labels: seq<string>)
      requires h.Sound()
      ensures Valid() && hmac == h && this.owner == owner && this.secrets == Usable(secrets) && this.labels == labels
    {
      this.labels := labels;
      var usable := Usable(secrets);
      provisioning := usable != [];
      buckets, current, added := map[], map[], [];
      this.hmac, this.owner, this.secrets := h, owner, usable;
      new;
      if owner.Some? {
        current := current[LEGACY_LABEL := owner.value];
        Add(owner.value);
      }
      AddLabels(h, usable);
    }

    method AddLabels(h: Hmac, usable: seq<string>)
      requires h.Sound() && h == hmac && usable == secrets
      requires Indexed() && current == Current(h, owner, usable, [])
      modifies `buckets, `current, `added
      ensures Indexed() && added == old(added) + Provisioned(h, usable, labels)
      ensures current == Current(h, owner, usable, labels)
    {
      hide DeriveUser, Derivations;
      for i := 0 to |labels|
        invariant Indexed() && added == old(added) + Provisioned(h, usable, labels[..i])
        invariant current == Current(h, owner, usable, labels[..i])
      {
        assert labels[..i + 1][..i] == labels[..i];
        AddLabel(h, usable, labels[i]);
      }
      assert labels[..|labels|] == labels;
    }

    /** Derive one label under every secret; only the first derivation is ever handed out. */
    method AddLabel(h: Hmac, usable: seq<string>, name: string)
      requires h.Sound() && Indexed()
      modifies `buckets, `current, `added
      ensures Indexed() && added == old(added) + Derivations(h, usable, name)
      ensures current == if usable == [] then old(current) else old(current)[name := DeriveUser(h, usable[0], name)]
    {
      hide Derivations, DeriveUser;
      DerivationsNone(h, name);
      for j := 0 to |usable|
        invariant Indexed() && added == old(added) + Derivations(h, usable[..j], name)
        invariant current == if j == 0 then old(current) else old(current)[name := DeriveUser(h, usable[0], name)]
      {
        var user := DeriveUser(h, usable[j], name);
        if j == 0 { current := current[name := user]; }
        DerivationsSnoc(h, usable, j, name);
        Add(user);
      }
      assert usable[..|usable|] == usable;
    }

    method Add(user: User)
      requires Indexed()
      modifies `buckets, `added
      ensures Indexed() && added == old(added) + [user]
    {
      hide WithKey, BucketKey;
      var key := BucketKey(user.id, 0);
      if key !in buckets {
        buckets := buckets[key := One(user)];
      } else if buckets[key].Many? {
        buckets := buckets[key := Many(buckets[key].users + [user])];
      } else {
        buckets := buckets[key := Many([buckets[key].user, user])];
      }
      added := added + [user];
      forall k: nat
        ensures WithKey(added, k) == if k in buckets then buckets[k].Users() else []
      {
        WithKeySnoc(old(added), user, k);
      }
    }

    /** The first-added credential with the 16 bytes at `off`. */
    method Lookup(payload: bytes, off: nat) returns (r: Option<User>)
      requires Valid()
      ensures r == Found(Credentials(hmac, owner, secrets, labels), payload, off)
    {
      hide Credentials, Current, WithKey, BucketKey, FirstMatch;
      var key := BucketKey(payload, off);
      if off + 16 <= |payload| { OneBucketDecides(added, payload, off); }
      assert forall id :: FirstMatch([], id).None? by { FirstMatchNone(); }
      if key !in buckets { return None; }
      var hit := buckets[key];
      if hit.One? {
        var same := Matches(hit.user, payload, off);
        if off + 16 <= |payload| { FirstMatchSnoc([], hit.user, payload[off..off + 16]); }
        assert [] + [hit.user] == [hit.user];
        return if same then Some(hit.user) else None;
      }
      for i := 0 to |hit.users|
        invariant off + 16 <= |payload| ==> FirstMatch(hit.users[..i], payload[off..off + 16]).None?
      {
        var same := Matches(hit.users[i], payload, off);
        assert hit.users[..i + 1] == hit.users[..i] + [hit.users[i]];
        if off + 16 <= |payload| { FirstMatchSnoc(hit.users[..i], hit.users[i], payload[off..off + 16]); }
        if same {
          FirstMatchAppend(hit.users[..i + 1], hit.users[i + 1..], payload[off..off + 16]);
          assert hit.users[..i + 1] + hit.users[i + 1..] == hit.users;
          return Some(hit.users[i]);
        }
      }
      assert hit.users[..|hit.users|] == hit.users;
      return None;
    }

    /** The credential an invite may hand out: never the operator's own. */
    method Mintable(name: string) returns (r: Option<User>)
      requires Valid()
      ensures r == if name != LEGACY_LABEL && name in labels && secrets != []
                   then Some(DeriveUser(hmac, secrets[0], name)) else None
    {
      hide DeriveUser, Credentials, Current, WithKey;
      MintableIffListed(hmac, owner, secrets, labels, name);
      if name == LEGACY_LABEL || name !in current { return None; }
      return Some(current[name]);
    }
  }

  /** The operator's own credential, if the text is one. */
  function OwnerOf(legacyUuid: string): Option<User> {
    match UuidToBytes(legacyUuid)
    case None => None
    case Some(id) => Some(User(LEGACY_LABEL, id, legacyUuid))
  }

  /** Null stands for the exception on a malformed UUID; without a UUID there is no operator's credential. */
  method CreateUserRegistry(h: Hmac, legacyUuid: string, secrets: seq<string>,
                            labels: seq<string>) returns (r: Registry?)
    requires h.Sound()
    ensures r == null <==> legacyUuid != "" && UuidToBytes(legacyUuid).None?
    ensures r != null ==>
              && fresh(r) && r.Valid() && r.hmac == h && r.labels == labels && r.secrets == Usable(secrets)
              && r.owner == if legacyUuid == "" then None else OwnerOf(legacyUuid)
  {
    var owner := None;
    if legacyUuid != "" {
      var id := ReadUuid(legacyUuid);
      if id.None? { return null; }
      owner := Some(User(LEGACY_LABEL, id.value, legacyUuid));
    }
    r := new Registry(h, owner, secrets, labels);
  }

  method Matches(user: User, payload: bytes, off: nat) returns (same: bool)
    ensures same <==> off + 16 <= |payload| && payload[off..off + 16] == user.id
  {
    for i := 0 to 16
      invariant off + i <= |payload| || i == 0
      invariant forall k :: 0 <= k < i ==> payload[off + k] == user.id[k]
    {
      if off + i >= |payload| || payload[off + i] != user.id[i] { return false; }
    }
    return true;
  }

  // ----- what a lookup finds -----

  lemma FirstMatchNone()
    ensures forall id :: FirstMatch([], id).None?
  {
  }

  lemma FirstMatchSnoc(users: seq<User>, u: User, id: bytes)
    ensures FirstMatch(users + [u], id) ==
            if FirstMatch(users, id).Some? then FirstMatch(users, id) else if u.id == id then Some(u) else None
  {
    assert (users + [u])[..|users|] == users;
  }

  /** However the buckets collide, the first match in a bucket is the first match of all. */
  lemma {:induction false} OneBucketDecides(users: seq<User>, payload: bytes, off: nat)
    requires off + 16 <= |payload|
    ensures FirstMatch(WithKey(users, BucketKey(payload, off)), payload[off..off + 16])
            == FirstMatch(users, payload[off..off + 16])
    decreases |users|
  {
    if users == [] {
    } else {
      var n, id, key := |users| - 1, payload[off..off + 16], BucketKey(payload, off);
      OneBucketDecides(users[..n], payload, off);
      assert id[0] == payload[off] && id[1] == payload[off + 1] && id[2] == payload[off + 2]
        && id[3] == payload[off + 3];
      assert BucketKey(id, 0) == key;
      hide BucketKey;
      var before := WithKey(users[..n], key);
      if BucketKey(users[n].id, 0) == key {
        assert WithKey(users, key) == before + [users[n]];
        FirstMatchSnoc(before, users[n], id);
      } else {
        assert WithKey(users, key) == before + [] == before;
        assert users[n].id != id;
      }
    }
  }

  /** The lookup finds the first credential added with these bytes, and finds none exactly when there is none. */
  lemma {:induction false} FirstMatchIsFirst(users: seq<User>, id: bytes)
    ensures FirstMatch(users, id).None? <==> forall i | 0 <= i < |users| :: users[i].id != id
    ensures FirstMatch(users, id).Some? ==>
              exists i | 0 <= i < |users| ::
                && users[i] == FirstMatch(users, id).value && users[i].id == id
                && forall j | 0 <= j < i :: users[j].id != id
    decreases |users|
  {
    if users == [] {
    } else {
      var n := |users| - 1;
      FirstMatchIsFirst(users[..n], id);
      if FirstMatch(users[..n], id).Some? {
        var i :| 0 <= i < n && users[..n][i] == FirstMatch(users[..n], id).value && users[..n][i].id == id
                 && forall j | 0 <= j < i :: users[..n][j].id != id;
        assert users[i].id == id && forall j | 0 <= j < i :: users[j].id == users[..n][j].id;
      } else {
        assert forall j | 0 <= j < n :: users[j].id == users[..n][j].id;
      }
    }
  }

  // ----- who is let in -----

  /** The label gives these bytes under some secret. */
  ghost predicate DerivesTo(h: Hmac, secrets: seq<string>, name: string, id: bytes)
    requires h.Sound()
  {
    exists secret :: secret in secrets && DeriveUser(h, secret, name).id == id
  }

  /** Some label in the list gives these bytes. */
  ghost predicate Listed(h: Hmac, secrets: seq<string>, labels: seq<string>, id: bytes)
    requires h.Sound()
  {
    exists i | 0 <= i < |labels| :: DerivesTo(h, secrets, labels[i], id)
  }

  lemma {:induction false} FirstMatchAppend(a: seq<User>, b: seq<User>, id: bytes)
    ensures FirstMatch(a + b, id) == if FirstMatch(a, id).Some? then FirstMatch(a, id) else FirstMatch(b, id)
    decreases |b|
  {
    if b == [] {
      assert a + b == a;
    } else {
      var n := |b| - 1;
      assert (a + b)[..|a + b| - 1] == a + b[..n];
      FirstMatchAppend(a, b[..n], id);
    }
  }

  lemma DerivationsMatch(h: Hmac, secrets: seq<string>, name: string, id: bytes)
    requires h.Sound()
    ensures FirstMatch(Derivations(h, secrets, name), id).Some? <==> DerivesTo(h, secrets, name, id)
  {
    hide DeriveUser;
    var all := Derivations(h, secrets, name);
    FirstMatchIsFirst(all, id);
    if DerivesTo(h, secrets, name, id) {
      var secret :| secret in secrets && DeriveUser(h, secret, name).id == id;
      var i :| 0 <= i < |secrets| && secrets[i] == secret;
      assert all[i].id == id;
    }
    if FirstMatch(all, id).Some? {
      var i :| 0 <= i < |all| && all[i].id == id;
      assert secrets[i] in secrets;
    }
  }

  lemma {:induction false} ProvisionedMatch(h: Hmac, secrets: seq<string>, labels: seq<string>, id: bytes)
    requires h.Sound()
    ensures FirstMatch(Provisioned(h, secrets, labels), id).Some? <==> Listed(h, secrets, labels, id)
    decreases |labels|
  {
    if labels == [] {
    } else {
      var n := |labels| - 1;
      ProvisionedMatch(h, secrets, labels[..n], id);
      DerivationsMatch(h, secrets, labels[n], id);
      FirstMatchAppend(Provisioned(h, secrets, labels[..n]), Derivations(h, secrets, labels[n]), id);
      ListedSnoc(h, secrets, labels, id);
      hide DerivesTo, FirstMatch, Listed;
    }
  }

  lemma ListedSnoc(h: Hmac, secrets: seq<string>, labels: seq<string>, id: bytes)
    requires h.Sound() && labels != []
    ensures var n := |labels| - 1;
            Listed(h, secrets, labels, id)
            <==> Listed(h, secrets, labels[..n], id) || DerivesTo(h, secrets, labels[n], id)
  {
    var before := labels[..|labels| - 1];
    assert forall i | 0 <= i < |before| :: before[i] == labels[i];
    hide DerivesTo;
  }

  /**
   A credential is accepted exactly when it is the operator's own or derives from a listed label under
   some secret that is not empty: rotating secrets locks no one out while the old one is still listed,
   and a label that is dropped is revoked.
   */
  lemma AcceptedIffProvisioned(h: Hmac, owner: Option<User>, secrets: seq<string>, labels: seq<string>, id: bytes)
    requires h.Sound()
    ensures FirstMatch(Credentials(h, owner, Usable(secrets), labels), id).Some? <==>
              || (owner.Some? && owner.value.id == id)
              || Listed(h, Usable(secrets), labels, id)
  {
    var own := if owner.Some? then [owner.value] else [];
    ProvisionedMatch(h, Usable(secrets), labels, id);
    FirstMatchAppend(own, Provisioned(h, Usable(secrets), labels), id);
    FirstMatchIsFirst(own, id);
    hide Usable, Listed, Provisioned;
  }

  /**
   An invite can hand out a label exactly when it is listed, is not the operator's, and there is a secret: the
   current secret's credential.
   */
  lemma {:induction false} MintableIffListed(h: Hmac, owner: Option<User>, secrets: seq<string>, labels: seq<string>,
                                             name: string)
    requires h.Sound()
    ensures name != LEGACY_LABEL ==>
              (name in Current(h, owner, secrets, labels) <==> name in labels && secrets != [])
    ensures name != LEGACY_LABEL && name in labels && secrets != [] ==>
              Current(h, owner, secrets, labels)[name] == DeriveUser(h, secrets[0], name)
    decreases |labels|
  {
    if labels == [] {
    } else {
      var n := |labels| - 1;
      MintableIffListed(h, owner, secrets, labels[..n], name);
      assert labels == labels[..n] + [labels[n]];
      hide DeriveUser;
    }
  }

  /** What the server's header parser is given to ask. */
  function AuthOf(users: seq<User>, text: N.Text): Vless.Auth {
    Vless.Auth(id => var u := FirstMatch(users, id); if u.Some? then Some(u.value.name) else None, text)
  }

  /** No tunnel opens without one of the added credentials, and it is billed to the first one with those bytes. */
  lemma TunnelsAreProvisioned(users: seq<User>, text: N.Text, p: bytes)
    requires Vless.ParseHeader(AuthOf(users, text), p).Ok?
    ensures |p| >= 18 && FirstMatch(users, p[1..17]).Some?
    ensures Vless.ParseHeader(AuthOf(users, text), p).request.user == FirstMatch(users, p[1..17]).value.name
  {
    hide Vless.ParseHost, N.IsBlocked, U16, FirstMatch;
  }

  /** The credential an invite hands out opens tunnels, and prints as the text that is handed out. */
  lemma MintedOpens(h: Hmac, owner: Option<User>, secrets: seq<string>, labels: seq<string>, name: string)
    requires h.Sound() && Usable(secrets) != [] && name in labels
    ensures var u := DeriveUser(h, Usable(secrets)[0], name);
            && u.name == name
            && FirstMatch(Credentials(h, owner, Usable(secrets), labels), u.id).Some?
            && UuidToBytes(u.uuid) == Some(u.id)
  {
    var u := DeriveUser(h, Usable(secrets)[0], name);
    assert Usable(secrets)[0] in Usable(secrets);
    UuidRoundTrip(u.id);
    assert DerivesTo(h, Usable(secrets), name, u.id);
    AcceptedIffProvisioned(h, owner, secrets, labels, u.id);
  }
}
