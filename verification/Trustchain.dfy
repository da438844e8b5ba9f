/**
 Client-side verification of a set of certificates: the recursion along "signed by" links
 with its loop detection, and the declarative chains it decides.
 */
module Trustchain {
  import opened Common
  import opened Certificates

  datatype Error =
    | InvalidCertificate
    | SignatureLoop
    | MissingDevice(deviceId: DeviceId)
    | MissingUser(userId: UserId)
    | NotAdmin(userId: UserId)
    | PosteriorToRevocation(userId: UserId)
    | SelfSignedUser(userId: UserId)
    | SelfSignedRevocation(userId: UserId)
    | UnexpectedUser(userId: UserId)

  datatype CertifState<C> = CertifState(certif: Bytes, content: C, verified: bool)

  /** An insertion-ordered dictionary of certificate states. */
  datatype States<K(==), C> = States(order: seq<K>, at: map<K, CertifState<C>>)

  datatype Env = Env(
    crypto: Crypto, root: VerifyKey,
    devices: States<DeviceId, DeviceContent>,
    users: States<UserId, UserContent>,
    revoked: States<UserId, RevokedContent>)

  // ---------- verification, as the code runs it ----------

  function CreatedByRoot<C>(env: Env, parse: Bytes -> Option<C>, head: C -> Head, certif: Bytes): Result<C, Error> {
    match VerifyAndLoad(env.crypto, parse, head, certif, env.root, None)
    case None => Err(InvalidCertificate)
    case Some(content) => Ok(content)
  }

  /** The rules on a certificate once the content of its author device is known. */
  function SignedByDevice<C>(env: Env, parse: Bytes -> Option<C>, head: C -> Head, certif: Bytes,
                             authorId: DeviceId, author: DeviceContent): Result<C, Error>
  {
    match VerifyAndLoad(env.crypto, parse, head, certif, author.verifyKey, Some(author.deviceId))
    case None => Err(InvalidCertificate)
    case Some(content) =>
      var crossUser := author.deviceId.userId != head(content).subject;
      if crossUser && authorId.userId !in env.users.at then
        Err(MissingUser(authorId.userId))
      else if crossUser && env.users.at[authorId.userId].content.profile != Admin then
        Err(NotAdmin(env.users.at[authorId.userId].content.userId))
      else if authorId.userId in env.revoked.at
              && head(content).timestamp > env.revoked.at[authorId.userId].content.timestamp then
        Err(PosteriorToRevocation(authorId.userId))
      else
        Ok(content)
  }

  function VerifyDevice(env: Env, id: DeviceId, signedChildren: seq<DeviceId>): Result<DeviceContent, Error>
    decreases env.devices.at.Keys - Elements(signedChildren)
  {
    if id in signedChildren then Err(SignatureLoop)
    else if id !in env.devices.at then Err(MissingDevice(id))
    else
      var state := env.devices.at[id];
      match state.content.author
      case None => CreatedByRoot(env, env.crypto.device, DeviceHead, state.certif)
      case Some(author) =>
        assert id in Elements(signedChildren + [id]) && id !in Elements(signedChildren);
        assert Elements(signedChildren) <= Elements(signedChildren + [id]);
        match VerifyDevice(env, author, signedChildren + [id])
        case Err(e) => Err(e)
        case Ok(device) => SignedByDevice(env, env.crypto.device, DeviceHead, state.certif, author, device)
  }

  function CreatedByDevice<C>(env: Env, parse: Bytes -> Option<C>, head: C -> Head,
                              certif: Bytes, author: DeviceId): Result<C, Error>
  {
    match VerifyDevice(env, author, [])
    case Err(e) => Err(e)
    case Ok(device) => SignedByDevice(env, parse, head, certif, author, device)
  }

  function VerifyUser(env: Env, content: UserContent, certif: Bytes): Result<UserContent, Error> {
    match content.author
    case None => CreatedByRoot(env, env.crypto.user, UserHead, certif)
    case Some(author) =>
      if author.userId == content.userId then Err(SelfSignedUser(content.userId))
      else CreatedByDevice(env, env.crypto.user, UserHead, certif, author)
  }

  function VerifyRevoked(env: Env, content: RevokedContent, certif: Bytes): Result<RevokedContent, Error> {
    match content.author
    case None => CreatedByRoot(env, env.crypto.revoked, RevokedHead, certif)
    case Some(author) =>
      if author.userId == content.userId then Err(SelfSignedRevocation(content.userId))
      else CreatedByDevice(env, env.crypto.revoked, RevokedHead, certif, author)
  }

  // ---------- the invariant of the state dictionaries ----------

  ghost predicate StatesFit<K(!new), C(!new)>(states: States<K, C>, parse: Bytes -> Option<C>, key: C -> K) {
    && Distinct(states.order)
    && (forall k :: k in states.order <==> k in states.at)
    && forall k :: k in states.at ==>
      && parse(states.at[k].certif).Some?
      && key(parse(states.at[k].certif).value) == k
      && key(states.at[k].content) == k
      && (!states.at[k].verified ==> states.at[k].content == parse(states.at[k].certif).value)
  }

  ghost predicate Fits(env: Env) {
    && StatesFit(env.devices, env.crypto.device, DeviceKey)
    && StatesFit(env.users, env.crypto.user, UserKey)
    && StatesFit(env.revoked, env.crypto.revoked, RevokedKey)
  }

  // ---------- the declarative reading ----------

  /** The supplied content of device `id`. */
  function Supplied(env: Env, id: DeviceId): DeviceContent
    requires id in env.devices.at && env.crypto.device(env.devices.at[id].certif).Some?
  {
    env.crypto.device(env.devices.at[id].certif).value
  }

  ghost predicate RootSigned(env: Env, certif: Bytes, head: Head) {
    head.author == None && env.crypto.verifies(env.root, certif)
  }

  /** `signer` may have signed a certificate with this head: key, author, profile and revocation. */
  ghost predicate LinkAllowed(env: Env, certif: Bytes, head: Head, signer: DeviceContent) {
    && env.crypto.verifies(signer.verifyKey, certif)
    && head.author == Some(signer.deviceId)
    && (signer.deviceId.userId != head.subject ==>
          && signer.deviceId.userId in env.users.at
          && env.users.at[signer.deviceId.userId].content.profile == Admin)
    && (signer.deviceId.userId in env.revoked.at ==>
          head.timestamp <= env.revoked.at[signer.deviceId.userId].content.timestamp)
  }

  /** The supplied certificate of `id` was signed by the device its state names as author. */
  ghost predicate Step(env: Env, id: DeviceId, signer: DeviceId)
    requires Fits(env)
  {
    && id in env.devices.at && signer in env.devices.at
    && env.devices.at[id].content.author == Some(signer)
    && LinkAllowed(env, env.devices.at[id].certif, DeviceHead(Supplied(env, id)), Supplied(env, signer))
  }

  /** A chain of supplied devices, each signed by the next, the last one by the root key. */
  ghost predicate IsChain(env: Env, path: seq<DeviceId>)
    requires Fits(env)
  {
    && |path| > 0
    && (forall i :: 0 <= i < |path| ==> path[i] in env.devices.at)
    && (forall i :: 0 <= i < |path| - 1 ==> Step(env, path[i], path[i + 1]))
    && var last := path[|path| - 1];
       && last in env.devices.at
       && env.devices.at[last].content.author == None
       && RootSigned(env, env.devices.at[last].certif, DeviceHead(Supplied(env, last)))
  }

  ghost predicate HasChain(env: Env, id: DeviceId)
    requires Fits(env)
  {
    exists path :: IsChain(env, path) && path[0] == id
  }

  /** A user or revocation certificate: root-signed, or signed by another user's chained device. */
  ghost predicate Endorsed(env: Env, certif: Bytes, head: Head, author: Option<DeviceId>)
    requires Fits(env)
  {
    match author
    case None => RootSigned(env, certif, head)
    case Some(a) =>
      && a.userId != head.subject
      && a in env.devices.at && HasChain(env, a)
      && LinkAllowed(env, certif, head, Supplied(env, a))
  }

  ghost predicate DevicesAccepted(env: Env)
    requires Fits(env)
  {
    forall id :: id in env.devices.at && !env.devices.at[id].verified ==> HasChain(env, id)
  }

  ghost predicate UsersAccepted(env: Env)
    requires Fits(env)
  {
    forall id :: id in env.users.at && !env.users.at[id].verified ==>
      var state := env.users.at[id];
      Endorsed(env, state.certif, UserHead(state.content), state.content.author)
  }

  ghost predicate RevokedAccepted(env: Env)
    requires Fits(env)
  {
    forall id :: id in env.revoked.at && !env.revoked.at[id].verified ==>
      var state := env.revoked.at[id];
      Endorsed(env, state.certif, RevokedHead(state.content), state.content.author)
  }

  /** Every certificate that is not already in cache has a chain to the root key. */
  ghost predicate Accepted(env: Env)
    requires Fits(env)
  {
    DevicesAccepted(env) && UsersAccepted(env) && RevokedAccepted(env)
  }

  // ---------- verification decides the chains ----------

  lemma SignedByDeviceMeaning<C>(env: Env, parse: Bytes -> Option<C>, head: C -> Head, certif: Bytes,
                                 authorId: DeviceId, author: DeviceContent)
    requires Fits(env) && author.deviceId == authorId && parse(certif).Some?
    ensures var r := SignedByDevice(env, parse, head, certif, authorId, author);
      && (r.Ok? <==> LinkAllowed(env, certif, head(parse(certif).value), author))
      && (r.Ok? ==> r.value == parse(certif).value)
  {
  }

  /** A verified device yields exactly the content supplied for it, and a loop-free chain. */
  lemma {:induction false} VerifiedHasChain(env: Env, id: DeviceId, children: seq<DeviceId>)
    returns (path: seq<DeviceId>)
    requires Fits(env) && VerifyDevice(env, id, children).Ok?
    ensures IsChain(env, path) && path[0] == id
    ensures Distinct(path) && forall x :: x in path ==> x !in children
    ensures VerifyDevice(env, id, children).value == Supplied(env, id)
    decreases env.devices.at.Keys - Elements(children)
  {
    var state := env.devices.at[id];
    match state.content.author
    case None =>
      path := [id];
    case Some(author) =>
      assert id in Elements(children + [id]) && id !in Elements(children);
      assert Elements(children) <= Elements(children + [id]);
      var rest := VerifiedHasChain(env, author, children + [id]);
      SignedByDeviceMeaning(env, env.crypto.device, DeviceHead, state.certif, author, Supplied(env, author));
      path := [id] + rest;
      assert id in children + [id];
      forall i | 0 <= i < |path| - 1
        ensures Step(env, path[i], path[i + 1])
      {
        if i > 0 {
          assert path[i] == rest[i - 1] && path[i + 1] == rest[i];
        }
      }
  }

  /** Along a chain the author links leave no choice, so a repeated device would never end. */
  lemma {:induction false} SameDeviceSameRest(env: Env, path: seq<DeviceId>, i: nat, j: nat, k: nat)
    requires Fits(env) && IsChain(env, path) && i < j && j + k < |path| && path[i] == path[j]
    ensures path[i + k] == path[j + k]
  {
    if k > 0 {
      SameDeviceSameRest(env, path, i, j, k - 1);
      assert Step(env, path[i + k - 1], path[i + k - 1 + 1]);
      assert Step(env, path[j + k - 1], path[j + k - 1 + 1]);
    }
  }

  lemma ChainsAreLoopFree(env: Env, path: seq<DeviceId>)
    requires Fits(env) && IsChain(env, path)
    ensures Distinct(path)
  {
    forall i, j | 0 <= i < j < |path|
      ensures path[i] != path[j]
    {
      var k := |path| - 1 - j;
      assert Step(env, path[i + k], path[i + k + 1]);
      if path[i] == path[j] {
        SameDeviceSameRest(env, path, i, j, k);
      }
    }
  }

  lemma {:induction false} ChainIsVerified(env: Env, path: seq<DeviceId>, children: seq<DeviceId>)
    requires Fits(env) && IsChain(env, path) && Distinct(path)
    requires forall x :: x in path ==> x !in children
    ensures VerifyDevice(env, path[0], children) == Ok(Supplied(env, path[0]))
    decreases |path|
  {
    if |path| > 1 {
      assert Step(env, path[0], path[0 + 1]);
      var rest := path[1..];
      forall i | 0 <= i < |rest| - 1
        ensures Step(env, rest[i], rest[i + 1])
      {
        assert rest[i] == path[i + 1] && rest[i + 1] == path[i + 1 + 1];
      }
      forall x | x in rest
        ensures x !in children + [path[0]]
      {
        var i :| 0 <= i < |rest| && rest[i] == x;
        assert path[i + 1] == x;
      }
      ChainIsVerified(env, rest, children + [path[0]]);
      SignedByDeviceMeaning(env, env.crypto.device, DeviceHead, env.devices.at[path[0]].certif, path[1],
        Supplied(env, path[1]));
    }
  }

  /** The recursion accepts a device exactly when the device has a chain to the root key. */
  lemma VerifyDeviceDecidesChains(env: Env, id: DeviceId)
    requires Fits(env)
    ensures VerifyDevice(env, id, []).Ok? <==> HasChain(env, id)
    ensures HasChain(env, id) ==> VerifyDevice(env, id, []) == Ok(Supplied(env, id))
  {
    if VerifyDevice(env, id, []).Ok? {
      var path := VerifiedHasChain(env, id, []);
    }
    if HasChain(env, id) {
      var path :| IsChain(env, path) && path[0] == id;
      ChainsAreLoopFree(env, path);
      ChainIsVerified(env, path, []);
    }
  }

  lemma CreatedByDeviceMeaning<C>(env: Env, parse: Bytes -> Option<C>, head: C -> Head, certif: Bytes, author: DeviceId)
    requires Fits(env) && parse(certif).Some?
    ensures var r := CreatedByDevice(env, parse, head, certif, author);
      && (r.Ok? <==>
            HasChain(env, author) && LinkAllowed(env, certif, head(parse(certif).value), Supplied(env, author)))
      && (r.Ok? ==> r.value == parse(certif).value)
  {
    VerifyDeviceDecidesChains(env, author);
    if HasChain(env, author) {
      SignedByDeviceMeaning(env, parse, head, certif, author, Supplied(env, author));
    }
  }

  /** A user certificate passes exactly when it is endorsed, and then its content was the one read before. */
  lemma VerifyUserDecides(env: Env, id: UserId)
    requires Fits(env) && id in env.users.at && !env.users.at[id].verified
    ensures var state := env.users.at[id];
      var r := VerifyUser(env, state.content, state.certif);
      && (r.Ok? <==> Endorsed(env, state.certif, UserHead(state.content), state.content.author))
      && (r.Ok? ==> r.value == state.content)
  {
    var state := env.users.at[id];
    if state.content.author.Some? {
      CreatedByDeviceMeaning(env, env.crypto.user, UserHead, state.certif, state.content.author.value);
    }
  }

  lemma VerifyRevokedDecides(env: Env, id: UserId)
    requires Fits(env) && id in env.revoked.at && !env.revoked.at[id].verified
    ensures var state := env.revoked.at[id];
      var r := VerifyRevoked(env, state.content, state.certif);
      && (r.Ok? <==> Endorsed(env, state.certif, RevokedHead(state.content), state.content.author))
      && (r.Ok? ==> r.value == state.content)
  {
    var state := env.revoked.at[id];
    if state.content.author.Some? {
      CreatedByDeviceMeaning(env, env.crypto.revoked, RevokedHead, state.certif, state.content.author.value);
    }
  }
}
