/** Why content that ends in the cache can be trusted, whichever call put it there. */
module TrustchainProvenance {
  import opened Common
  import opened Certificates
  import opened Trustchain

  ghost predicate SignedBy(crypto: Crypto, certif: Bytes, head: Head, signer: Bytes) {
    && crypto.device(signer).Some?
    && crypto.verifies(crypto.device(signer).value.verifyKey, certif)
    && head.author == Some(crypto.device(signer).value.deviceId)
  }

  /** Device certificates, each signed by the next one, the last one by the root key. */
  ghost predicate SignedChain(crypto: Crypto, root: VerifyKey, chain: seq<Bytes>) {
    && |chain| > 0
    && (forall i :: 0 <= i < |chain| ==> crypto.device(chain[i]).Some?)
    && (forall i :: 0 <= i < |chain| - 1 ==>
          SignedBy(crypto, chain[i], DeviceHead(crypto.device(chain[i]).value), chain[i + 1]))
    && var last := chain[|chain| - 1];
       crypto.verifies(root, last) && crypto.device(last).value.author == None
  }

  /** `certif` is signed by the root key, or by the first device of a signed chain. */
  ghost predicate SignedVia(crypto: Crypto, root: VerifyKey, certif: Bytes, head: Head, chain: seq<Bytes>) {
    if chain == [] then head.author == None && crypto.verifies(root, certif)
    else SignedChain(crypto, root, chain) && SignedBy(crypto, certif, head, chain[0])
  }

  /** A user content under a signature that leads to the root key. */
  ghost predicate VouchedUser(crypto: Crypto, root: VerifyKey, content: UserContent) {
    exists certif, chain :: crypto.user(certif) == Some(content) &&
      SignedVia(crypto, root, certif, UserHead(content), chain)
  }

  /** Signed by the root key, by one's own device, or by a user vouched to be an administrator. */
  ghost predicate Permitted(crypto: Crypto, root: VerifyKey, head: Head) {
    || head.author == None
    || head.author.value.userId == head.subject
    || exists admin ::
         VouchedUser(crypto, root, admin) && admin.userId == head.author.value.userId && admin.profile == Admin
  }

  ghost predicate PermittedVia(crypto: Crypto, root: VerifyKey, certif: Bytes, head: Head, chain: seq<Bytes>) {
    && SignedVia(crypto, root, certif, head, chain)
    && Permitted(crypto, root, head)
    && forall i :: 0 <= i < |chain| ==>
         crypto.device(chain[i]).Some? && Permitted(crypto, root, DeviceHead(crypto.device(chain[i]).value))
  }

  ghost predicate TrustedDevice(crypto: Crypto, root: VerifyKey, content: DeviceContent) {
    exists certif, chain ::
      crypto.device(certif) == Some(content) && PermittedVia(crypto, root, certif, DeviceHead(content), chain)
  }

  ghost predicate TrustedUser(crypto: Crypto, root: VerifyKey, content: UserContent) {
    && (content.author.Some? ==> content.author.value.userId != content.userId)
    && exists certif, chain ::
         crypto.user(certif) == Some(content) && PermittedVia(crypto, root, certif, UserHead(content), chain)
  }

  ghost predicate TrustedRevoked(crypto: Crypto, root: VerifyKey, content: RevokedContent) {
    && (content.author.Some? ==> content.author.value.userId != content.userId)
    && exists certif, chain ::
         crypto.revoked(certif) == Some(content) && PermittedVia(crypto, root, certif, RevokedHead(content), chain)
  }

  /** The contents served from the cache are trusted. */
  ghost predicate CacheTrusted(env: Env) {
    && (forall id :: id in env.devices.at && env.devices.at[id].verified ==>
      TrustedDevice(env.crypto, env.root, env.devices.at[id].content))
    && (forall id :: id in env.users.at && env.users.at[id].verified ==>
      TrustedUser(env.crypto, env.root, env.users.at[id].content))
    && (forall id :: id in env.revoked.at && env.revoked.at[id].verified ==>
      TrustedRevoked(env.crypto, env.root, env.revoked.at[id].content))
  }

  ghost predicate AllTrusted(env: Env) {
    && (forall id :: id in env.devices.at ==> TrustedDevice(env.crypto, env.root, env.devices.at[id].content))
    && (forall id :: id in env.users.at ==> TrustedUser(env.crypto, env.root, env.users.at[id].content))
    && (forall id :: id in env.revoked.at ==> TrustedRevoked(env.crypto, env.root, env.revoked.at[id].content))
  }

  ghost function CertifsOf(env: Env, path: seq<DeviceId>): (chain: seq<Bytes>)
    requires forall i :: 0 <= i < |path| ==> path[i] in env.devices.at
    ensures |chain| == |path| && forall i :: 0 <= i < |path| ==> chain[i] == env.devices.at[path[i]].certif
  {
    seq(|path|, i requires 0 <= i < |path| => env.devices.at[path[i]].certif)
  }

  lemma ChainIsSigned(env: Env, path: seq<DeviceId>)
    requires Fits(env) && IsChain(env, path)
    ensures SignedChain(env.crypto, env.root, CertifsOf(env, path))
  {
    var chain := CertifsOf(env, path);
    forall i | 0 <= i < |chain| - 1
      ensures SignedBy(env.crypto, chain[i], DeviceHead(env.crypto.device(chain[i]).value), chain[i + 1])
    {
      assert Step(env, path[i], path[i + 1]);
    }
  }

  /** The signature route of an endorsed certificate. */
  lemma EndorsedIsSigned(env: Env, certif: Bytes, head: Head) returns (path: seq<DeviceId>)
    requires Fits(env) && Endorsed(env, certif, head, head.author)
    ensures path != [] ==> IsChain(env, path) && head.author == Some(path[0])
    ensures forall i :: 0 <= i < |path| ==> path[i] in env.devices.at
    ensures SignedVia(env.crypto, env.root, certif, head, CertifsOf(env, path))
  {
    if head.author.None? {
      path := [];
    } else {
      path :| IsChain(env, path) && path[0] == head.author.value;
      ChainIsSigned(env, path);
      assert CertifsOf(env, path)[0] == env.devices.at[path[0]].certif;
    }
  }

  lemma SuppliedUsersAreVouched(env: Env, id: UserId)
    requires Fits(env) && CacheTrusted(env) && Accepted(env) && id in env.users.at
    ensures VouchedUser(env.crypto, env.root, env.users.at[id].content)
  {
    var state := env.users.at[id];
    if !state.verified {
      var path := EndorsedIsSigned(env, state.certif, UserHead(state.content));
    }
  }

  lemma AllowedIsPermitted(env: Env, certif: Bytes, head: Head, signer: DeviceContent)
    requires Fits(env) && CacheTrusted(env) && Accepted(env) && LinkAllowed(env, certif, head, signer)
    ensures Permitted(env.crypto, env.root, head)
  {
    if signer.deviceId.userId != head.subject {
      SuppliedUsersAreVouched(env, signer.deviceId.userId);
    }
  }

  lemma ChainIsPermitted(env: Env, path: seq<DeviceId>)
    requires Fits(env) && CacheTrusted(env) && Accepted(env) && IsChain(env, path)
    ensures forall i :: 0 <= i < |path| ==> Permitted(env.crypto, env.root, DeviceHead(Supplied(env, path[i])))
  {
    forall i | 0 <= i < |path|
      ensures Permitted(env.crypto, env.root, DeviceHead(Supplied(env, path[i])))
    {
      if i < |path| - 1 {
        assert Step(env, path[i], path[i + 1]);
        AllowedIsPermitted(env, env.devices.at[path[i]].certif, DeviceHead(Supplied(env, path[i])),
          Supplied(env, path[i + 1]));
      }
    }
  }

  lemma EndorsedIsPermitted(env: Env, certif: Bytes, head: Head) returns (chain: seq<Bytes>)
    requires Fits(env) && CacheTrusted(env) && Accepted(env) && Endorsed(env, certif, head, head.author)
    ensures PermittedVia(env.crypto, env.root, certif, head, chain)
  {
    var path := EndorsedIsSigned(env, certif, head);
    chain := CertifsOf(env, path);
    if path != [] {
      ChainIsPermitted(env, path);
      AllowedIsPermitted(env, certif, head, Supplied(env, path[0]));
    }
  }

  /** The first certificate of a chain is signed through the rest of it. */
  lemma ChainTail(crypto: Crypto, root: VerifyKey, chain: seq<Bytes>)
    requires SignedChain(crypto, root, chain)
    ensures SignedVia(crypto, root, chain[0], DeviceHead(crypto.device(chain[0]).value), chain[1..])
  {
    var rest := chain[1..];
    if rest != [] {
      assert SignedBy(crypto, chain[0], DeviceHead(crypto.device(chain[0]).value), chain[0 + 1]);
      forall i | 0 <= i < |rest| - 1
        ensures SignedBy(crypto, rest[i], DeviceHead(crypto.device(rest[i]).value), rest[i + 1])
      {
        assert rest[i] == chain[i + 1] && rest[i + 1] == chain[i + 1 + 1];
      }
    }
  }

  lemma PermittedChainHead(crypto: Crypto, root: VerifyKey, chain: seq<Bytes>)
    requires SignedChain(crypto, root, chain)
    requires forall i :: 0 <= i < |chain| ==> Permitted(crypto, root, DeviceHead(crypto.device(chain[i]).value))
    ensures TrustedDevice(crypto, root, crypto.device(chain[0]).value)
  {
    ChainTail(crypto, root, chain);
    assert PermittedVia(crypto, root, chain[0], DeviceHead(crypto.device(chain[0]).value), chain[1..]);
  }

  lemma ChainedDeviceIsTrusted(env: Env, id: DeviceId)
    requires Fits(env) && CacheTrusted(env) && Accepted(env) && HasChain(env, id)
    ensures TrustedDevice(env.crypto, env.root, Supplied(env, id))
  {
    var path :| IsChain(env, path) && path[0] == id;
    ChainIsSigned(env, path);
    ChainIsPermitted(env, path);
    PermittedChainHead(env.crypto, env.root, CertifsOf(env, path));
  }

  /**
   The admin and revocation rules read contents that may not be verified yet.  Once the whole
   load is accepted, every content of the dictionaries is trusted, those included.
   */
  lemma AcceptedContentsAreTrusted(env: Env)
    requires Fits(env) && CacheTrusted(env) && Accepted(env)
    ensures AllTrusted(env)
  {
    forall id | id in env.devices.at ensures TrustedDevice(env.crypto, env.root, env.devices.at[id].content) {
      if !env.devices.at[id].verified {
        ChainedDeviceIsTrusted(env, id);
      }
    }
    forall id | id in env.users.at ensures TrustedUser(env.crypto, env.root, env.users.at[id].content) {
      if !env.users.at[id].verified {
        var chain := EndorsedIsPermitted(env, env.users.at[id].certif, UserHead(env.users.at[id].content));
      }
    }
    forall id | id in env.revoked.at ensures TrustedRevoked(env.crypto, env.root, env.revoked.at[id].content) {
      if !env.revoked.at[id].verified {
        var chain := EndorsedIsPermitted(env, env.revoked.at[id].certif, RevokedHead(env.revoked.at[id].content));
      }
    }
  }

  /** A certificate's author is a trusted administrator when it signs for someone else, and not revoked before. */
  ghost predicate WellAuthored(env: Env, head: Head) {
    match head.author
    case None => true
    case Some(a) =>
      && (a.userId != head.subject ==>
            && a.userId in env.users.at
            && env.users.at[a.userId].content.profile == Admin
            && TrustedUser(env.crypto, env.root, env.users.at[a.userId].content))
      && (a.userId in env.revoked.at ==>
            && head.timestamp <= env.revoked.at[a.userId].content.timestamp
            && TrustedRevoked(env.crypto, env.root, env.revoked.at[a.userId].content))
  }

  /** Optimistic reads are justified: the consulted contents were themselves verified in the end. */
  lemma FreshCertificatesAreWellAuthored(env: Env)
    requires Fits(env) && CacheTrusted(env) && Accepted(env)
    ensures forall id :: id in env.devices.at && !env.devices.at[id].verified ==>
      WellAuthored(env, DeviceHead(env.devices.at[id].content))
    ensures forall id :: id in env.users.at && !env.users.at[id].verified ==>
      WellAuthored(env, UserHead(env.users.at[id].content))
    ensures forall id :: id in env.revoked.at && !env.revoked.at[id].verified ==>
      WellAuthored(env, RevokedHead(env.revoked.at[id].content))
  {
    AcceptedContentsAreTrusted(env);
    forall id | id in env.devices.at && !env.devices.at[id].verified
      ensures WellAuthored(env, DeviceHead(env.devices.at[id].content))
    {
      var path :| IsChain(env, path) && path[0] == id;
      if |path| > 1 {
        assert Step(env, path[0], path[0 + 1]);
      }
    }
  }

  // ---------- the order of the dictionaries does not matter ----------

  ghost predicate SameStates(env: Env, other: Env) {
    && env.crypto == other.crypto && env.root == other.root
    && env.devices.at == other.devices.at && env.users.at == other.users.at && env.revoked.at == other.revoked.at
  }

  lemma ChainsIgnoreOrder(env: Env, other: Env)
    requires Fits(env) && Fits(other) && SameStates(env, other)
    ensures forall id :: HasChain(env, id) ==> HasChain(other, id)
  {
    forall id | HasChain(env, id) ensures HasChain(other, id) {
      var path :| IsChain(env, path) && path[0] == id;
      forall i | 0 <= i < |path| - 1 ensures Step(other, path[i], path[i + 1]) {
        assert Step(env, path[i], path[i + 1]);
      }
      assert IsChain(other, path);
    }
  }

  lemma AcceptanceIgnoresOrder(env: Env, other: Env)
    requires Fits(env) && Fits(other) && SameStates(env, other)
    ensures Accepted(env) <==> Accepted(other)
  {
    ChainsIgnoreOrder(env, other);
    ChainsIgnoreOrder(other, env);
  }
}
