/**
 Server and client together: a client with empty caches accepts the server's answer exactly
 when no certificate of the answer is dated after the revocation of its author.
 */
module TrustchainEndToEnd {
  import opened Common
  import opened Certificates
  import opened Reachability
  import opened Trustchain
  import opened CertificateCollection
  import opened TrustchainLoading
  import opened UserStore
  import opened UserComponent
  import opened TrustchainExtraction

  /** Collecting one certificate per identifier gives one state each, with the cached content if there is one. */
  lemma CollectedExactly<K(!new), C(!new)>(
    certifs: seq<Bytes>, parse: Bytes -> Option<C>, key: C -> K, cached: K -> Option<C>,
    ids: set<K>, certifOf: K -> Bytes)
    requires KeyedBy(cached, key)
    requires forall c :: c in certifs ==> exists k :: k in ids && c == certifOf(k)
    requires forall k :: k in ids ==>
      certifOf(k) in certifs && parse(certifOf(k)).Some? && key(parse(certifOf(k)).value) == k
    ensures var r := Collect(certifs, parse, key, cached);
      && r.Some? && StatesFit(r.value, parse, key) && r.value.at.Keys == ids
      && forall k :: k in ids ==> r.value.at[k] == MakeState(certifOf(k), parse(certifOf(k)).value, key, cached)
  {
    CollectedStates(certifs, parse, key, cached);
    var r := Collect(certifs, parse, key, cached);
    assert forall c :: c in certifs ==> parse(c).Some?;
    forall k ensures k in r.value.at <==> k in ids {
      if k in r.value.at {
        var k' :| k' in ids && r.value.at[k].certif == certifOf(k');
      }
      if k in ids {
        assert certifOf(k) in certifs;
      }
    }
    forall k | k in ids ensures r.value.at[k] == MakeState(certifOf(k), parse(certifOf(k)).value, key, cached) {
      assert k in r.value.at;
      var k' :| k' in ids && r.value.at[k].certif == certifOf(k');
    }
  }

  // ---------- what the answer contains ----------

  ghost function AnswerDevices(store: Store, userId: UserId, closure: set<DeviceId>): set<DeviceId> {
    closure + Elements(DevicesOfUser(store.deviceOrder, userId))
  }

  ghost function AnswerUsers(userId: UserId, closure: set<DeviceId>): set<UserId> {
    {userId} + set id | id in closure :: id.userId
  }

  ghost function RevokedUsers(store: Store, ids: set<UserId>): set<UserId>
    requires ids <= store.users.Keys
  {
    set id | id in ids && store.users[id].revokedUserCertificate.Some?
  }

  /** The certifiers of everything in the answer are in the answer, each with its user. */
  ghost predicate CertifiersSupplied(store: Store, ds: set<DeviceId>, us: set<UserId>) {
    && Linked(store) && ds <= store.devices.Keys && us <= store.users.Keys
    && (forall id :: id in ds && store.devices[id].deviceCertifier.Some? ==>
          && store.devices[id].deviceCertifier.value in ds && store.devices[id].deviceCertifier.value.userId in us)
    && (forall id :: id in us && store.users[id].userCertifier.Some? ==>
          && store.users[id].userCertifier.value in ds && store.users[id].userCertifier.value.userId in us)
    && (forall id :: id in us && store.users[id].revokedUserCertifier.Some? ==>
          && store.users[id].revokedUserCertifier.value in ds &&
            store.users[id].revokedUserCertifier.value.userId in us)
  }

  lemma StepAfter(store: Store, starts: seq<Option<DeviceId>>, x: DeviceId, y: DeviceId)
    requires ReachedFrom(store, starts, x) && Certifies(store, x, y)
    ensures ReachedFrom(store, starts, y)
  {
    var s :| s in starts && s.Some? && Reaches(Edges(store), s.value, x);
    var path :| IsPath(Edges(store), s.value, x, path);
    var longer := path + [y];
    forall i | 0 <= i < |longer| - 1 ensures Edges(store)(longer[i], longer[i + 1]) {
      if i < |path| - 1 {
        assert longer[i] == path[i] && longer[i + 1] == path[i + 1];
      }
    }
    assert IsPath(Edges(store), s.value, y, longer);
  }

  lemma StartIsReached(store: Store, starts: seq<Option<DeviceId>>, k: nat)
    requires k < |starts| && starts[k].Some?
    ensures ReachedFrom(store, starts, starts[k].value)
  {
    ReachesItself(Edges(store), starts[k].value);
    assert starts[k] in starts;
  }

  lemma OwnCertifiersAreReached(store: Store, userId: UserId, k: nat)
    requires userId in store.users && Linked(store) && k < |DevicesOfUser(store.deviceOrder, userId)|
    ensures var id := DevicesOfUser(store.deviceOrder, userId)[k];
      && id in DevicesOfUser(store.deviceOrder, userId) && id in store.devices
      && (store.devices[id].deviceCertifier.Some? ==>
            ReachedFrom(store, StartingPoints(store, userId), store.devices[id].deviceCertifier.value))
  {
    var starts := StartingPoints(store, userId);
    var own := DevicesOfUser(store.deviceOrder, userId);
    assert own[k] in own;
    StartOfDevice(store, userId, k);
    if starts[k + 2].Some? {
      StartIsReached(store, starts, k + 2);
    }
  }

  lemma UserCertifiersAreReached(store: Store, userId: UserId, closure: set<DeviceId>, id: UserId)
    requires userId in store.users && Linked(store) && IsClosure(store, userId, closure) &&
      id in AnswerUsers(userId, closure)
    ensures id in store.users
    ensures store.users[id].userCertifier.Some? ==> store.users[id].userCertifier.value in closure
    ensures store.users[id].revokedUserCertifier.Some? ==> store.users[id].revokedUserCertifier.value in closure
  {
    var starts := StartingPoints(store, userId);
    if id == userId {
      var user := store.users[id];
      assert starts[0] == user.userCertifier && starts[1] == user.revokedUserCertifier;
      if user.userCertifier.Some? { StartIsReached(store, starts, 0); }
      if user.revokedUserCertifier.Some? { StartIsReached(store, starts, 1); }
    } else {
      var d :| d in closure && d.userId == id;
      var user := store.users[id];
      if user.userCertifier.Some? {
        assert Certifies(store, d, user.userCertifier.value);
        StepAfter(store, starts, d, user.userCertifier.value);
      }
      if user.revokedUserCertifier.Some? {
        assert Certifies(store, d, user.revokedUserCertifier.value);
        StepAfter(store, starts, d, user.revokedUserCertifier.value);
      }
    }
  }

  lemma AnswerSuppliesCertifiers(store: Store, userId: UserId, closure: set<DeviceId>)
    requires userId in store.users && Linked(store) && IsClosure(store, userId, closure)
    ensures CertifiersSupplied(store, AnswerDevices(store, userId, closure), AnswerUsers(userId, closure))
  {
    var own := DevicesOfUser(store.deviceOrder, userId);
    forall id | id in AnswerDevices(store, userId, closure)
      ensures id in store.devices
      ensures store.devices[id].deviceCertifier.Some? ==> store.devices[id].deviceCertifier.value in closure
    {
      if id in closure {
        if store.devices[id].deviceCertifier.Some? {
          assert Certifies(store, id, store.devices[id].deviceCertifier.value);
          StepAfter(store, StartingPoints(store, userId), id, store.devices[id].deviceCertifier.value);
        }
      } else {
        var k :| 0 <= k < |own| && own[k] == id;
        OwnCertifiersAreReached(store, userId, k);
      }
    }
    forall id | id in AnswerUsers(userId, closure)
      ensures id in store.users
      ensures store.users[id].userCertifier.Some? ==> store.users[id].userCertifier.value in closure
      ensures store.users[id].revokedUserCertifier.Some? ==> store.users[id].revokedUserCertifier.value in closure
    {
      UserCertifiersAreReached(store, userId, closure, id);
    }
  }

  // ---------- the client's dictionaries mirror the store ----------

  ghost predicate DeviceMirrored(env: Env, store: Store, redacted: bool, id: DeviceId) {
    && id in env.devices.at && id in store.devices
    && var certif := DeviceCertif(store.devices[id], redacted);
       env.crypto.device(certif).Some? &&
         env.devices.at[id] == CertifState(certif, env.crypto.device(certif).value, false)
  }

  ghost predicate UserMirrored(env: Env, store: Store, redacted: bool, id: UserId) {
    && id in env.users.at && id in store.users
    && var certif := UserCertif(store.users[id], redacted);
       env.crypto.user(certif).Some? && env.users.at[id] == CertifState(certif, env.crypto.user(certif).value, false)
  }

  ghost predicate RevocationMirrored(env: Env, store: Store, id: UserId) {
    && id in env.revoked.at && id in store.users && store.users[id].revokedUserCertificate.Some?
    && var certif := store.users[id].revokedUserCertificate.value;
       env.crypto.revoked(certif).Some? &&
         env.revoked.at[id] == CertifState(certif, env.crypto.revoked(certif).value, false)
  }

  ghost predicate Mirrors(env: Env, store: Store, redacted: bool, ds: set<DeviceId>, us: set<UserId>) {
    && Fits(env) && store.root == Some(env.root)
    && us <= store.users.Keys
    && env.devices.at.Keys == ds && (forall id :: id in ds ==> DeviceMirrored(env, store, redacted, id))
    && env.users.at.Keys == us && (forall id :: id in us ==> UserMirrored(env, store, redacted, id))
    && env.revoked.at.Keys == RevokedUsers(store, us)
    && (forall id :: id in RevokedUsers(store, us) ==> RevocationMirrored(env, store, id))
  }

  /** What a content says about the device is what the store has recorded, the label aside. */
  ghost predicate DeviceAgrees(crypto: Crypto, device: Device, content: DeviceContent) {
    && crypto.device(device.deviceCertificate).Some?
    && content.deviceId == device.deviceId && content.author == device.deviceCertifier
    && content.timestamp == device.createdOn && content.verifyKey == KeyOf(crypto, device)
  }

  ghost predicate UserAgrees(user: User, content: UserContent) {
    && content.userId == user.userId && content.profile == user.profile
    && content.author == user.userCertifier && content.timestamp == user.createdOn
  }

  ghost predicate RevocationAgrees(user: User, content: RevokedContent) {
    user.revokedOn.Some? && content == RevokedContent(user.revokedUserCertifier, user.revokedOn.value, user.userId)
  }

  ghost predicate DeviceFollows(env: Env, store: Store, redacted: bool, id: DeviceId) {
    && id in env.devices.at && id in store.devices
    && env.devices.at[id].certif == DeviceCertif(store.devices[id], redacted)
    && DeviceAgrees(env.crypto, store.devices[id], env.devices.at[id].content)
  }

  ghost predicate UserFollows(env: Env, store: Store, redacted: bool, id: UserId) {
    && id in env.users.at && id in store.users
    && env.users.at[id].certif == UserCertif(store.users[id], redacted)
    && UserAgrees(store.users[id], env.users.at[id].content)
  }

  ghost predicate RevocationFollows(env: Env, store: Store, id: UserId) {
    && id in env.revoked.at && id in store.users
    && Some(env.revoked.at[id].certif) == store.users[id].revokedUserCertificate
    && RevocationAgrees(store.users[id], env.revoked.at[id].content)
  }

  /** The dictionaries hold the certificates of the store, each with a content that agrees with it, cached or not. */
  ghost predicate Follows(env: Env, store: Store, redacted: bool, ds: set<DeviceId>, us: set<UserId>) {
    && Fits(env) && store.root == Some(env.root)
    && us <= store.users.Keys
    && env.devices.at.Keys == ds && (forall id :: id in ds ==> DeviceFollows(env, store, redacted, id))
    && env.users.at.Keys == us && (forall id :: id in us ==> UserFollows(env, store, redacted, id))
    && env.revoked.at.Keys == RevokedUsers(store, us)
    && (forall id :: id in RevokedUsers(store, us) ==> RevocationFollows(env, store, id))
  }

  lemma StoredContentsAgree(crypto: Crypto, store: Store, redacted: bool)
    requires StoreFits(crypto, store)
    ensures forall id :: id in store.devices ==>
      var r := crypto.device(DeviceCertif(store.devices[id], redacted));
      r.Some? && DeviceAgrees(crypto, store.devices[id], r.value)
    ensures forall id :: id in store.users ==>
      var r := crypto.user(UserCertif(store.users[id], redacted)); r.Some? && UserAgrees(store.users[id], r.value)
    ensures forall id :: id in store.users && store.users[id].revokedUserCertificate.Some? ==>
      var r := crypto.revoked(store.users[id].revokedUserCertificate.value);
      r.Some? && RevocationAgrees(store.users[id], r.value)
  {
    forall id | id in store.devices
      ensures var r := crypto.device(DeviceCertif(store.devices[id], redacted));
        r.Some? && DeviceAgrees(crypto, store.devices[id], r.value)
    {
      assert DeviceEntryFits(crypto, store, id);
      assert DeviceCertificateFits(crypto, store, store.devices[id], DeviceCertif(store.devices[id], redacted));
    }
    forall id | id in store.users
      ensures var r := crypto.user(UserCertif(store.users[id], redacted));
        r.Some? && UserAgrees(store.users[id], r.value)
      ensures store.users[id].revokedUserCertificate.Some? ==>
        var r := crypto.revoked(store.users[id].revokedUserCertificate.value);
        r.Some? && RevocationAgrees(store.users[id], r.value)
    {
      assert UserEntryFits(crypto, store, id);
      assert UserCertificateFits(crypto, store, store.users[id], UserCertif(store.users[id], redacted));
    }
  }

  lemma MirrorsFollow(env: Env, store: Store, redacted: bool, ds: set<DeviceId>, us: set<UserId>)
    requires StoreFits(env.crypto, store) && Mirrors(env, store, redacted, ds, us)
    ensures Follows(env, store, redacted, ds, us)
  {
    StoredContentsAgree(env.crypto, store, redacted);
    forall id | id in ds ensures DeviceFollows(env, store, redacted, id) {
      assert DeviceMirrored(env, store, redacted, id);
    }
    forall id | id in us ensures UserFollows(env, store, redacted, id) {
      assert UserMirrored(env, store, redacted, id);
    }
    forall id | id in RevokedUsers(store, us) ensures RevocationFollows(env, store, id) {
      assert RevocationMirrored(env, store, id);
    }
  }

  /** The certificate is not dated after the revocation of its author. */
  ghost predicate Timely(store: Store, certifier: Option<DeviceId>, on: Timestamp) {
    (certifier.Some? && certifier.value.userId in store.users &&
      store.users[certifier.value.userId].revokedOn.Some?) ==>
      on <= store.users[certifier.value.userId].revokedOn.value
  }

  ghost predicate NothingAfterRevocation(store: Store, ds: set<DeviceId>, us: set<UserId>) {
    && (forall id :: id in ds && id in store.devices ==>
      Timely(store, store.devices[id].deviceCertifier, store.devices[id].createdOn))
    && (forall id :: id in us && id in store.users ==>
          && Timely(store, store.users[id].userCertifier, store.users[id].createdOn)
          && (store.users[id].revokedOn.Some? ==>
            Timely(store, store.users[id].revokedUserCertifier, store.users[id].revokedOn.value)))
  }

  /** Every condition on a link but the one about dates. */
  ghost predicate LinkSound(env: Env, certif: Bytes, head: Head, signer: DeviceContent) {
    && env.crypto.verifies(signer.verifyKey, certif)
    && head.author == Some(signer.deviceId)
    && (signer.deviceId.userId != head.subject ==>
          && signer.deviceId.userId in env.users.at
          && env.users.at[signer.deviceId.userId].content.profile == Admin)
  }

  /** A link that the store checked can only be refused for its date. */
  lemma LinkIsAboutDates(
    env: Env, store: Store, redacted: bool, ds: set<DeviceId>, us: set<UserId>, certif: Bytes, head: Head, a: DeviceId)
    requires Follows(env, store, redacted, ds, us) && a in ds && a.userId in us
    requires DeviceEntryFits(env.crypto, store, a) && UserEntryFits(env.crypto, store, a.userId)
    requires SignedByCertifier(env.crypto, store, certif, Some(a)) && head.author == Some(a)
    requires a.userId != head.subject ==> IsAdmin(store, a.userId)
    ensures LinkSound(env, certif, head, Supplied(env, a))
    ensures LinkAllowed(env, certif, head, Supplied(env, a)) <==> Timely(store, Some(a), head.timestamp)
  {
    var signer := Supplied(env, a);
    assert DeviceFollows(env, store, redacted, a);
    assert DeviceCertificateFits(env.crypto, store, store.devices[a], DeviceCertif(store.devices[a], redacted));
    assert signer.deviceId == a && signer.verifyKey == KeyOf(env.crypto, store.devices[a]);
    assert UserFollows(env, store, redacted, a.userId);
    assert UserCertificateFits(env.crypto, store, store.users[a.userId], UserCertif(store.users[a.userId], redacted));
    if a.userId in env.revoked.at {
      assert RevocationFollows(env, store, a.userId);
    }
  }

  /** For each certificate of the answer, acceptance is a matter of dates and of the author's chain. */
  ghost predicate DeviceLinked(env: Env, store: Store, ds: set<DeviceId>, id: DeviceId)
    requires Fits(env)
  {
    && id in env.devices.at && id in store.devices
    && store.devices[id].deviceCertifier == env.devices.at[id].content.author
    && match store.devices[id].deviceCertifier
       case None => RootSigned(env, env.devices.at[id].certif, DeviceHead(Supplied(env, id)))
       case Some(a) =>
         && a in ds && a in env.devices.at
         && LinkSound(env, env.devices.at[id].certif, DeviceHead(Supplied(env, id)), Supplied(env, a))
         && (Step(env, id, a) <==> Timely(store, Some(a), store.devices[id].createdOn))
  }

  ghost predicate EndorsementLinked(
    env: Env, store: Store, ds: set<DeviceId>, certif: Bytes, head: Head, certifier: Option<DeviceId>, on: Timestamp)
    requires Fits(env)
  {
    && head.author == certifier
    && match certifier
       case None => Endorsed(env, certif, head, None)
       case Some(a) =>
         && a in ds && a in env.devices.at && a.userId != head.subject
         && LinkSound(env, certif, head, Supplied(env, a))
         && (Endorsed(env, certif, head, Some(a)) <==> HasChain(env, a) && Timely(store, Some(a), on))
  }

  ghost predicate UserLinked(env: Env, store: Store, ds: set<DeviceId>, id: UserId)
    requires Fits(env)
  {
    && id in env.users.at && id in store.users
    && EndorsementLinked(env, store, ds, env.users.at[id].certif, UserHead(env.users.at[id].content),
         store.users[id].userCertifier, store.users[id].createdOn)
  }

  ghost predicate RevocationLinked(env: Env, store: Store, ds: set<DeviceId>, id: UserId)
    requires Fits(env)
  {
    id in store.users && store.users[id].revokedOn.Some? ==>
      && id in env.revoked.at
      && EndorsementLinked(env, store, ds, env.revoked.at[id].certif, RevokedHead(env.revoked.at[id].content),
           store.users[id].revokedUserCertifier, store.users[id].revokedOn.value)
  }

  ghost predicate AllLinked(env: Env, store: Store, ds: set<DeviceId>, us: set<UserId>) {
    && Fits(env)
    && env.devices.at.Keys == ds && env.users.at.Keys == us
    && (forall id :: id in ds ==> DeviceLinked(env, store, ds, id))
    && (forall id :: id in us ==> UserLinked(env, store, ds, id))
    && (forall id :: id in us ==> RevocationLinked(env, store, ds, id))
    && (forall id :: id in env.revoked.at ==> id in us && id in store.users && store.users[id].revokedOn.Some?)
  }

  lemma DeviceLink(env: Env, store: Store, redacted: bool, ds: set<DeviceId>, us: set<UserId>, id: DeviceId)
    requires StoreFits(env.crypto, store) && CertifiersSupplied(store, ds, us) &&
      Follows(env, store, redacted, ds, us) && id in ds
    ensures DeviceLinked(env, store, ds, id)
  {
    var device := store.devices[id];
    assert DeviceFollows(env, store, redacted, id);
    assert DeviceEntryFits(env.crypto, store, id);
    var certif := DeviceCertif(device, redacted);
    assert DeviceCertificateFits(env.crypto, store, device, certif);
    if device.deviceCertifier.Some? {
      var a := device.deviceCertifier.value;
      assert DeviceEntryFits(env.crypto, store, a) && UserEntryFits(env.crypto, store, a.userId);
      LinkIsAboutDates(env, store, redacted, ds, us, certif, DeviceHead(Supplied(env, id)), a);
    }
  }

  lemma UserLink(env: Env, store: Store, redacted: bool, ds: set<DeviceId>, us: set<UserId>, id: UserId)
    requires StoreFits(env.crypto, store) && CertifiersSupplied(store, ds, us) &&
      Follows(env, store, redacted, ds, us) && id in us
    ensures UserLinked(env, store, ds, id)
  {
    var user := store.users[id];
    assert UserFollows(env, store, redacted, id);
    assert UserEntryFits(env.crypto, store, id);
    assert UserCertificateFits(env.crypto, store, user, UserCertif(user, redacted));
    if user.userCertifier.Some? {
      var a := user.userCertifier.value;
      assert DeviceEntryFits(env.crypto, store, a) && UserEntryFits(env.crypto, store, a.userId);
      LinkIsAboutDates(env, store, redacted, ds, us, env.users.at[id].certif, UserHead(env.users.at[id].content), a);
    }
  }

  lemma RevocationLink(env: Env, store: Store, redacted: bool, ds: set<DeviceId>, us: set<UserId>, id: UserId)
    requires StoreFits(env.crypto, store) && CertifiersSupplied(store, ds, us) &&
      Follows(env, store, redacted, ds, us) && id in us
    ensures RevocationLinked(env, store, ds, id)
    ensures id in env.revoked.at <==> store.users[id].revokedOn.Some?
  {
    var user := store.users[id];
    assert UserEntryFits(env.crypto, store, id);
    if user.revokedOn.Some? {
      assert RevocationFollows(env, store, id);
      var a := user.revokedUserCertifier.value;
      assert DeviceEntryFits(env.crypto, store, a) && UserEntryFits(env.crypto, store, a.userId);
      LinkIsAboutDates(env, store, redacted, ds, us, env.revoked.at[id].certif,
        RevokedHead(env.revoked.at[id].content), a);
    }
  }

  lemma FollowersAreLinked(env: Env, store: Store, redacted: bool, ds: set<DeviceId>, us: set<UserId>)
    requires StoreFits(env.crypto, store) && CertifiersSupplied(store, ds, us) && Follows(env, store, redacted, ds, us)
    ensures AllLinked(env, store, ds, us)
  {
    forall id | id in ds ensures DeviceLinked(env, store, ds, id) { DeviceLink(env, store, redacted, ds, us, id); }
    forall id | id in us
      ensures UserLinked(env, store, ds, id) && RevocationLinked(env, store, ds, id)
      ensures id in env.revoked.at <==> id in store.users && store.users[id].revokedOn.Some?
    {
      UserLink(env, store, redacted, ds, us, id);
      RevocationLink(env, store, redacted, ds, us, id);
    }
  }

  lemma MirrorsAreLinked(env: Env, store: Store, redacted: bool, ds: set<DeviceId>, us: set<UserId>)
    requires StoreFits(env.crypto, store) && CertifiersSupplied(store, ds, us) && Mirrors(env, store, redacted, ds, us)
    ensures AllLinked(env, store, ds, us) && NothingCached(env)
  {
    MirrorsFollow(env, store, redacted, ds, us);
    FollowersAreLinked(env, store, redacted, ds, us);
    forall id | id in ds ensures !env.devices.at[id].verified { assert DeviceMirrored(env, store, redacted, id); }
    forall id | id in us ensures !env.users.at[id].verified { assert UserMirrored(env, store, redacted, id); }
    forall id | id in RevokedUsers(store, us) ensures !env.revoked.at[id].verified {
      assert RevocationMirrored(env, store, id);
    }
  }

  ghost predicate NothingCached(env: Env) {
    && (forall id :: id in env.devices.at ==> !env.devices.at[id].verified)
    && (forall id :: id in env.users.at ==> !env.users.at[id].verified)
    && (forall id :: id in env.revoked.at ==> !env.revoked.at[id].verified)
  }

  lemma {:induction false} EveryDeviceHasChain(env: Env, store: Store, ds: set<DeviceId>, us: set<UserId>, k: nat)
    requires OrderFits(store) && AllLinked(env, store, ds, us) && NothingAfterRevocation(store, ds, us)
    requires k < |store.deviceOrder| && store.deviceOrder[k] in ds
    ensures HasChain(env, store.deviceOrder[k])
    decreases k
  {
    var id := store.deviceOrder[k];
    assert DeviceLinked(env, store, ds, id);
    if store.devices[id].deviceCertifier.None? {
      assert IsChain(env, [id]);
    } else {
      var a := store.devices[id].deviceCertifier.value;
      var j :| 0 <= j < k && store.deviceOrder[j] == a;
      EveryDeviceHasChain(env, store, ds, us, j);
      PrependToChain(env, id, a);
    }
  }

  lemma PrependToChain(env: Env, id: DeviceId, a: DeviceId)
    requires Fits(env) && Step(env, id, a) && HasChain(env, a)
    ensures HasChain(env, id)
  {
    var rest :| IsChain(env, rest) && rest[0] == a;
    var path := [id] + rest;
    forall i | 0 <= i < |path| - 1 ensures Step(env, path[i], path[i + 1]) {
      if i > 0 {
        assert path[i] == rest[i - 1] && path[i + 1] == rest[i - 1 + 1];
      }
    }
    assert IsChain(env, path);
  }

  lemma TimelyIsAccepted(env: Env, store: Store, ds: set<DeviceId>, us: set<UserId>)
    requires OrderFits(store) && AllLinked(env, store, ds, us) && NothingAfterRevocation(store, ds, us)
    ensures Accepted(env)
  {
    forall id | id in ds ensures HasChain(env, id) {
      assert DeviceLinked(env, store, ds, id);
      assert id in store.deviceOrder;
      var k :| 0 <= k < |store.deviceOrder| && store.deviceOrder[k] == id;
      EveryDeviceHasChain(env, store, ds, us, k);
    }
    forall id | id in us
      ensures Endorsed(env, env.users.at[id].certif, UserHead(env.users.at[id].content),
        env.users.at[id].content.author)
    {
      assert UserLinked(env, store, ds, id);
    }
    forall id | id in env.revoked.at
      ensures Endorsed(env, env.revoked.at[id].certif, RevokedHead(env.revoked.at[id].content),
        env.revoked.at[id].content.author)
    {
      assert RevocationLinked(env, store, ds, id);
    }
  }

  lemma ChainedDeviceIsTimely(env: Env, store: Store, ds: set<DeviceId>, id: DeviceId)
    requires Fits(env) && DeviceLinked(env, store, ds, id) && HasChain(env, id)
    ensures Timely(store, store.devices[id].deviceCertifier, store.devices[id].createdOn)
  {
    if store.devices[id].deviceCertifier.Some? {
      var path :| IsChain(env, path) && path[0] == id;
      assert Step(env, path[0], path[0 + 1]);
    }
  }

  lemma EndorsedIsTimely(
    env: Env, store: Store, ds: set<DeviceId>, certif: Bytes, head: Head, certifier: Option<DeviceId>, on: Timestamp)
    requires Fits(env) && EndorsementLinked(env, store, ds, certif, head, certifier, on) &&
      Endorsed(env, certif, head, certifier)
    ensures Timely(store, certifier, on)
  {
  }

  lemma AcceptedIsTimely(env: Env, store: Store, ds: set<DeviceId>, us: set<UserId>)
    requires AllLinked(env, store, ds, us) && NothingCached(env) && Accepted(env)
    ensures NothingAfterRevocation(store, ds, us)
  {
    forall id | id in ds && id in store.devices
      ensures Timely(store, store.devices[id].deviceCertifier, store.devices[id].createdOn)
    {
      assert DeviceLinked(env, store, ds, id);
      ChainedDeviceIsTimely(env, store, ds, id);
    }
    forall id | id in us && id in store.users
      ensures Timely(store, store.users[id].userCertifier, store.users[id].createdOn)
    {
      assert UserLinked(env, store, ds, id);
      EndorsedIsTimely(env, store, ds, env.users.at[id].certif, UserHead(env.users.at[id].content),
        store.users[id].userCertifier, store.users[id].createdOn);
    }
    forall id | id in us && id in store.users && store.users[id].revokedOn.Some?
      ensures Timely(store, store.users[id].revokedUserCertifier, store.users[id].revokedOn.value)
    {
      assert RevocationLinked(env, store, ds, id);
      EndorsedIsTimely(env, store, ds, env.revoked.at[id].certif, RevokedHead(env.revoked.at[id].content),
        store.users[id].revokedUserCertifier, store.users[id].revokedOn.value);
    }
  }

  // ---------- nothing but a date can be wrong ----------

  ghost predicate DatesOnly<T>(r: Result<T, Error>) {
    r.Err? ==> r.error.PosteriorToRevocation?
  }

  lemma SoundLinkFailsOnDatesOnly<C>(
    env: Env, parse: Bytes -> Option<C>, head: C -> Head, certif: Bytes, a: DeviceId, signer: DeviceContent)
    requires parse(certif).Some? && signer.deviceId == a && LinkSound(env, certif, head(parse(certif).value), signer)
    ensures DatesOnly(SignedByDevice(env, parse, head, certif, a, signer))
  {
  }

  lemma RootDeviceIsFine(env: Env, id: DeviceId, children: seq<DeviceId>)
    requires Fits(env) && id in env.devices.at && id !in children && env.devices.at[id].content.author.None?
    requires RootSigned(env, env.devices.at[id].certif, DeviceHead(Supplied(env, id)))
    ensures VerifyDevice(env, id, children) == Ok(Supplied(env, id))
  {
  }

  lemma LinkedDeviceFailsOnDatesOnly(env: Env, id: DeviceId, a: DeviceId, children: seq<DeviceId>)
    requires Fits(env) && id in env.devices.at && a in env.devices.at && id !in children
    requires env.devices.at[id].content.author == Some(a)
    requires LinkSound(env, env.devices.at[id].certif, DeviceHead(Supplied(env, id)), Supplied(env, a))
    requires var r := VerifyDevice(env, a, children + [id]); DatesOnly(r) && (r.Ok? ==> r.value == Supplied(env, a))
    ensures var r := VerifyDevice(env, id, children); DatesOnly(r) && (r.Ok? ==> r.value == Supplied(env, id))
  {
    SoundLinkFailsOnDatesOnly(env, env.crypto.device, DeviceHead, env.devices.at[id].certif, a, Supplied(env, a));
  }

  /** The devices on the way were all created later, so the way never comes back to one of them. */
  lemma {:induction false} DevicesFailOnDatesOnly(
    env: Env, store: Store, ds: set<DeviceId>, us: set<UserId>, k: nat, children: seq<DeviceId>)
    requires OrderFits(store) && AllLinked(env, store, ds, us)
    requires k < |store.deviceOrder| && store.deviceOrder[k] in ds
    requires forall j :: 0 <= j <= k ==> store.deviceOrder[j] !in children
    ensures var r := VerifyDevice(env, store.deviceOrder[k], children);
      DatesOnly(r) && (r.Ok? ==> r.value == Supplied(env, store.deviceOrder[k]))
    decreases k
  {
    var id := store.deviceOrder[k];
    assert DeviceLinked(env, store, ds, id);
    if store.devices[id].deviceCertifier.Some? {
      var a := store.devices[id].deviceCertifier.value;
      var j :| 0 <= j < k && store.deviceOrder[j] == a;
      DevicesFailOnDatesOnly(env, store, ds, us, j, children + [id]);
      LinkedDeviceFailsOnDatesOnly(env, id, a, children);
    } else {
      RootDeviceIsFine(env, id, children);
    }
  }

  lemma DeviceFailsOnDatesOnly(env: Env, store: Store, ds: set<DeviceId>, us: set<UserId>, id: DeviceId)
    requires OrderFits(store) && AllLinked(env, store, ds, us) && id in ds
    ensures var r := VerifyDevice(env, id, []); DatesOnly(r) && (r.Ok? ==> r.value == Supplied(env, id))
  {
    assert DeviceLinked(env, store, ds, id);
    assert id in store.deviceOrder;
    var k :| 0 <= k < |store.deviceOrder| && store.deviceOrder[k] == id;
    DevicesFailOnDatesOnly(env, store, ds, us, k, []);
  }

  lemma EndorsementFailsOnDatesOnly<C>(env: Env, store: Store, ds: set<DeviceId>, us: set<UserId>,
                                       parse: Bytes -> Option<C>, head: C -> Head, certif: Bytes, a: DeviceId,
                                       on: Timestamp)
    requires OrderFits(store) && AllLinked(env, store, ds, us) && parse(certif).Some?
    requires EndorsementLinked(env, store, ds, certif, head(parse(certif).value), Some(a), on)
    ensures DatesOnly(CreatedByDevice(env, parse, head, certif, a))
  {
    DeviceFailsOnDatesOnly(env, store, ds, us, a);
    SoundLinkFailsOnDatesOnly(env, parse, head, certif, a, Supplied(env, a));
  }

  ghost predicate DatesOnlyError(e: Option<Error>) {
    e.Some? ==> e.value.PosteriorToRevocation?
  }

  lemma {:induction false} DevicesErrorIsAboutDates(
    env: Env, store: Store, ds: set<DeviceId>, us: set<UserId>, order: seq<DeviceId>)
    requires OrderFits(store) && AllLinked(env, store, ds, us) && forall id :: id in order ==> id in env.devices.at
    ensures DatesOnlyError(DevicesError(env, order))
  {
    if order != [] {
      DeviceFailsOnDatesOnly(env, store, ds, us, order[0]);
      DevicesErrorIsAboutDates(env, store, ds, us, order[1..]);
    }
  }

  lemma {:induction false} UsersErrorIsAboutDates(
    env: Env, store: Store, ds: set<DeviceId>, us: set<UserId>, order: seq<UserId>)
    requires OrderFits(store) && AllLinked(env, store, ds, us) && forall id :: id in order ==> id in env.users.at
    ensures DatesOnlyError(UsersError(env, order))
  {
    if order != [] {
      var id := order[0];
      assert UserLinked(env, store, ds, id);
      if !env.users.at[id].verified && store.users[id].userCertifier.Some? {
        EndorsementFailsOnDatesOnly(env, store, ds, us, env.crypto.user, UserHead, env.users.at[id].certif,
          store.users[id].userCertifier.value, store.users[id].createdOn);
      }
      UsersErrorIsAboutDates(env, store, ds, us, order[1..]);
    }
  }

  lemma {:induction false} RevokedErrorIsAboutDates(
    env: Env, store: Store, ds: set<DeviceId>, us: set<UserId>, order: seq<UserId>)
    requires OrderFits(store) && AllLinked(env, store, ds, us) && forall id :: id in order ==> id in env.revoked.at
    ensures DatesOnlyError(RevokedError(env, order))
  {
    if order != [] {
      RevocationFailsOnDatesOnly(env, store, ds, us, order[0]);
      RevokedErrorIsAboutDates(env, store, ds, us, order[1..]);
    }
  }

  lemma RevocationFailsOnDatesOnly(env: Env, store: Store, ds: set<DeviceId>, us: set<UserId>, id: UserId)
    requires OrderFits(store) && AllLinked(env, store, ds, us) && id in env.revoked.at
    ensures !env.revoked.at[id].verified ==>
      DatesOnly(VerifyRevoked(env, env.revoked.at[id].content, env.revoked.at[id].certif))
  {
    assert RevocationLinked(env, store, ds, id);
    if !env.revoked.at[id].verified && store.users[id].revokedUserCertifier.Some? {
      EndorsementFailsOnDatesOnly(env, store, ds, us, env.crypto.revoked, RevokedHead, env.revoked.at[id].certif,
        store.users[id].revokedUserCertifier.value, store.users[id].revokedOn.value);
    }
  }

  lemma LinkedFailsOnDatesOnly(env: Env, store: Store, ds: set<DeviceId>, us: set<UserId>)
    requires OrderFits(store) && AllLinked(env, store, ds, us)
    ensures DatesOnlyError(LoadError(env))
  {
    DevicesErrorIsAboutDates(env, store, ds, us, env.devices.order);
    UsersErrorIsAboutDates(env, store, ds, us, env.users.order);
    RevokedErrorIsAboutDates(env, store, ds, us, env.revoked.order);
  }

  // ---------- from the answer to the dictionaries ----------

  const EMPTY_CACHES := Caches(map[], map[], map[])

  function SuppliedUsers(a: Answer): seq<Bytes> { [a.userCertificate] + a.trustchainUsers }

  function SuppliedRevoked(a: Answer): seq<Bytes> {
    match a.revokedUserCertificate
    case None => a.trustchainRevoked
    case Some(certif) => [certif] + a.trustchainRevoked
  }

  function SuppliedDevices(a: Answer): seq<Bytes> { a.deviceCertificates + a.trustchainDevices }

  ghost function DeviceCertifOf(store: Store, redacted: bool): DeviceId -> Bytes {
    id => if id in store.devices then DeviceCertif(store.devices[id], redacted) else []
  }

  ghost function UserCertifOf(store: Store, redacted: bool): UserId -> Bytes {
    id => if id in store.users then UserCertif(store.users[id], redacted) else []
  }

  ghost function RevokedCertifOf(store: Store): UserId -> Bytes {
    id => if id in store.users &&
      store.users[id].revokedUserCertificate.Some? then store.users[id].revokedUserCertificate.value else []
  }

  /** The certificates of a valid store parse to what they are filed under. */
  ghost predicate CertifsParse(crypto: Crypto, store: Store, redacted: bool) {
    && (forall id :: id in store.devices ==>
          var r := crypto.device(DeviceCertif(store.devices[id], redacted)); r.Some? && r.value.deviceId == id)
    && (forall id :: id in store.users ==>
          var r := crypto.user(UserCertif(store.users[id], redacted)); r.Some? && r.value.userId == id)
    && (forall id :: id in store.users && store.users[id].revokedUserCertificate.Some? ==>
          var r := crypto.revoked(store.users[id].revokedUserCertificate.value); r.Some? && r.value.userId == id)
  }

  lemma ValidStoreParses(crypto: Crypto, store: Store, redacted: bool)
    requires StoreFits(crypto, store)
    ensures CertifsParse(crypto, store, redacted)
  {
    forall id | id in store.devices
      ensures var r := crypto.device(DeviceCertif(store.devices[id], redacted)); r.Some? && r.value.deviceId == id
    {
      assert DeviceEntryFits(crypto, store, id);
      assert DeviceCertificateFits(crypto, store, store.devices[id], DeviceCertif(store.devices[id], redacted));
    }
    forall id | id in store.users
      ensures var r := crypto.user(UserCertif(store.users[id], redacted)); r.Some? && r.value.userId == id
    {
      assert UserEntryFits(crypto, store, id);
      assert UserCertificateFits(crypto, store, store.users[id], UserCertif(store.users[id], redacted));
    }
    forall id | id in store.users && store.users[id].revokedUserCertificate.Some?
      ensures var r := crypto.revoked(store.users[id].revokedUserCertificate.value); r.Some? && r.value.userId == id
    {
      assert UserEntryFits(crypto, store, id);
    }
  }

  /** One state for each of these devices, made from its stored certificate and the cache. */
  ghost predicate DevicesCollected(
    states: States<DeviceId, DeviceContent>, crypto: Crypto, store: Store, redacted: bool, ds: set<DeviceId>,
    cached: DeviceId -> Option<DeviceContent>)
  {
    && StatesFit(states, crypto.device, DeviceKey) && states.at.Keys == ds && ds <= store.devices.Keys
    && forall id :: id in ds ==>
         var certif := DeviceCertif(store.devices[id], redacted);
         crypto.device(certif).Some? &&
           states.at[id] == MakeState(certif, crypto.device(certif).value, DeviceKey, cached)
  }

  ghost predicate UsersCollected(
    states: States<UserId, UserContent>, crypto: Crypto, store: Store, redacted: bool, us: set<UserId>,
    cached: UserId -> Option<UserContent>)
  {
    && StatesFit(states, crypto.user, UserKey) && states.at.Keys == us && us <= store.users.Keys
    && forall id :: id in us ==>
         var certif := UserCertif(store.users[id], redacted);
         crypto.user(certif).Some? && states.at[id] == MakeState(certif, crypto.user(certif).value, UserKey, cached)
  }

  ghost predicate RevokedCollected(
    states: States<UserId, RevokedContent>, crypto: Crypto, store: Store, rs: set<UserId>,
    cached: UserId -> Option<RevokedContent>)
  {
    && StatesFit(states, crypto.revoked, RevokedKey) && states.at.Keys == rs
    && forall id :: id in rs ==>
         && id in store.users && store.users[id].revokedUserCertificate.Some?
         && var certif := store.users[id].revokedUserCertificate.value;
            crypto.revoked(certif).Some? &&
              states.at[id] == MakeState(certif, crypto.revoked(certif).value, RevokedKey, cached)
  }

  lemma DevicesOfAnswer(
    crypto: Crypto, store: Store, userId: UserId, redacted: bool, closure: set<DeviceId>, a: Answer,
    cached: DeviceId -> Option<DeviceContent>)
    requires KeyedBy(cached, DeviceKey)
    requires CertifsParse(crypto, store, redacted) && userId in store.users && Linked(store) &&
      IsAnswer(store, userId, redacted, closure, a)
    ensures var r := Collect(SuppliedDevices(a), crypto.device, DeviceKey, cached);
      r.Some? && DevicesCollected(r.value, crypto, store, redacted, AnswerDevices(store, userId, closure), cached)
  {
    var ds := AnswerDevices(store, userId, closure);
    var certifs := SuppliedDevices(a);
    var certifOf := DeviceCertifOf(store, redacted);
    forall c | c in certifs ensures exists id :: id in ds && c == certifOf(id) {
      var id := DeviceOfCertif(store, userId, redacted, closure, a, c);
      assert c == certifOf(id);
    }
    forall id | id in ds ensures id in store.devices && certifOf(id) in certifs {
      DeviceIsSupplied(store, userId, redacted, closure, a, id);
    }
    CollectedExactly(certifs, crypto.device, DeviceKey, cached, ds, certifOf);
  }

  lemma DeviceOfCertif(store: Store, userId: UserId, redacted: bool, closure: set<DeviceId>, a: Answer, c: Bytes)
    returns (id: DeviceId)
    requires userId in store.users && Linked(store) && IsAnswer(store, userId, redacted, closure, a) &&
      c in SuppliedDevices(a)
    ensures id in AnswerDevices(store, userId, closure) && id in store.devices &&
      c == DeviceCertif(store.devices[id], redacted)
  {
    if c in a.deviceCertificates {
      var k :| 0 <= k < |a.deviceCertificates| && a.deviceCertificates[k] == c;
      id := DevicesOfUser(store.deviceOrder, userId)[k];
    } else {
      assert c in Elements(a.trustchainDevices);
      id :| id in closure && c == DeviceCertif(store.devices[id], redacted);
    }
  }

  lemma DeviceIsSupplied(store: Store, userId: UserId, redacted: bool, closure: set<DeviceId>, a: Answer, id: DeviceId)
    requires userId in store.users && Linked(store) && IsAnswer(store, userId, redacted, closure, a)
    requires id in AnswerDevices(store, userId, closure)
    ensures id in store.devices && DeviceCertif(store.devices[id], redacted) in SuppliedDevices(a)
  {
    if id in closure {
      assert DeviceCertif(store.devices[id], redacted) in Elements(a.trustchainDevices);
    } else {
      var own := DevicesOfUser(store.deviceOrder, userId);
      var k :| 0 <= k < |own| && own[k] == id;
      assert a.deviceCertificates[k] in a.deviceCertificates;
    }
  }

  lemma UsersOfAnswer(
    crypto: Crypto, store: Store, userId: UserId, redacted: bool, closure: set<DeviceId>, a: Answer,
    cached: UserId -> Option<UserContent>)
    requires KeyedBy(cached, UserKey)
    requires CertifsParse(crypto, store, redacted) && userId in store.users && Linked(store) &&
      IsAnswer(store, userId, redacted, closure, a)
    ensures var r := Collect(SuppliedUsers(a), crypto.user, UserKey, cached);
      r.Some? && UsersCollected(r.value, crypto, store, redacted, AnswerUsers(userId, closure), cached)
  {
    var us := AnswerUsers(userId, closure);
    var certifs := SuppliedUsers(a);
    var certifOf := UserCertifOf(store, redacted);
    forall c | c in certifs ensures exists id :: id in us && c == certifOf(id) {
      if c == a.userCertificate {
        assert userId in us && c == certifOf(userId);
      } else {
        assert c in Elements(a.trustchainUsers);
        var d :| d in closure && c == UserCertif(store.users[d.userId], redacted);
        assert d.userId in us && c == certifOf(d.userId);
      }
    }
    forall id | id in us ensures id in store.users && certifOf(id) in certifs {
      if id == userId {
        assert certifs[0] == certifOf(id);
      } else {
        var d :| d in closure && d.userId == id;
        assert UserCertif(store.users[d.userId], redacted) in Elements(a.trustchainUsers);
      }
    }
    CollectedExactly(certifs, crypto.user, UserKey, cached, us, certifOf);
  }

  lemma RevokedCertifsOfAnswer(store: Store, userId: UserId, redacted: bool, closure: set<DeviceId>, a: Answer)
    requires userId in store.users && Linked(store) && IsAnswer(store, userId, redacted, closure, a)
    requires AnswerUsers(userId, closure) <= store.users.Keys
    ensures forall c :: c in SuppliedRevoked(a) ==>
      exists id :: id in RevokedUsers(store, AnswerUsers(userId, closure)) && c == RevokedCertifOf(store)(id)
    ensures forall id :: id in RevokedUsers(store, AnswerUsers(userId, closure)) ==>
      RevokedCertifOf(store)(id) in SuppliedRevoked(a)
  {
    var rs := RevokedUsers(store, AnswerUsers(userId, closure));
    var certifs := SuppliedRevoked(a);
    var certifOf := RevokedCertifOf(store);
    forall c | c in certifs ensures exists id :: id in rs && c == certifOf(id) {
      if Some(c) == a.revokedUserCertificate {
        assert userId in rs && c == certifOf(userId);
      } else {
        assert c in Elements(a.trustchainRevoked);
        var d :| d in closure && store.users[d.userId].revokedUserCertificate == Some(c);
        assert d.userId in rs && c == certifOf(d.userId);
      }
    }
    forall id | id in rs ensures certifOf(id) in certifs {
      if id == userId {
        assert certifs[0] == certifOf(id);
      } else {
        var d :| d in closure && d.userId == id;
        assert certifOf(id) in RevokedCertifs(store, closure);
        assert certifOf(id) in Elements(a.trustchainRevoked);
      }
    }
  }

  lemma RevokedOfAnswer(
    crypto: Crypto, store: Store, userId: UserId, redacted: bool, closure: set<DeviceId>, a: Answer,
    cached: UserId -> Option<RevokedContent>)
    requires KeyedBy(cached, RevokedKey)
    requires CertifsParse(crypto, store, redacted) && userId in store.users && Linked(store) &&
      IsAnswer(store, userId, redacted, closure, a)
    requires AnswerUsers(userId, closure) <= store.users.Keys
    ensures var r := Collect(SuppliedRevoked(a), crypto.revoked, RevokedKey, cached);
      r.Some? && RevokedCollected(r.value, crypto, store, RevokedUsers(store, AnswerUsers(userId, closure)), cached)
  {
    var rs := RevokedUsers(store, AnswerUsers(userId, closure));
    RevokedCertifsOfAnswer(store, userId, redacted, closure, a);
    CollectedExactly(SuppliedRevoked(a), crypto.revoked, RevokedKey, cached, rs,
      RevokedCertifOf(store));
  }

  /** Caches whose entries are filed under their own identifiers. */
  ghost predicate CachesKeyed(caches: Caches) {
    && (forall k :: k in caches.devices ==> caches.devices[k].1.deviceId == k)
    && (forall k :: k in caches.users ==> caches.users[k].1.userId == k)
    && (forall k :: k in caches.revoked ==> caches.revoked[k].1.userId == k)
  }

  lemma ServingIsKeyed(caches: Caches, validity: int, now: Timestamp)
    requires CachesKeyed(caches)
    ensures KeyedBy(Serving(caches.devices, validity, now), DeviceKey)
    ensures KeyedBy(Serving(caches.users, validity, now), UserKey)
    ensures KeyedBy(Serving(caches.revoked, validity, now), RevokedKey)
  {
  }

  /** The dictionaries that an answer leads to: one state for each device, user and revocation of the answer. */
  ghost predicate Collected(
    env: Env, store: Store, redacted: bool, ds: set<DeviceId>, us: set<UserId>, caches: Caches, validity: int,
    now: Timestamp)
  {
    && DevicesCollected(env.devices, env.crypto, store, redacted, ds, Serving(caches.devices, validity, now))
    && UsersCollected(env.users, env.crypto, store, redacted, us, Serving(caches.users, validity, now))
    && RevokedCollected(env.revoked, env.crypto, store, RevokedUsers(store, us), Serving(caches.revoked, validity, now))
  }

  lemma AnswerIsCollected(
    crypto: Crypto, store: Store, userId: UserId, redacted: bool, closure: set<DeviceId>, a: Answer, caches: Caches,
    now: Timestamp, validity: int)
    returns (env: Env)
    requires CertifsParse(crypto, store, redacted) && store.root.Some? && userId in store.users && Linked(store)
    requires IsAnswer(store, userId, redacted, closure, a) && CachesKeyed(caches)
    ensures Supply(crypto, store.root.value, validity, caches, SuppliedUsers(a), SuppliedRevoked(a),
      SuppliedDevices(a), now) == Some(env)
    ensures env.crypto == crypto && env.root == store.root.value
    ensures Collected(env, store, redacted, AnswerDevices(store, userId, closure), AnswerUsers(userId, closure),
      caches, validity, now)
  {
    ServingIsKeyed(caches, validity, now);
    DevicesOfAnswer(crypto, store, userId, redacted, closure, a, Serving(caches.devices, validity, now));
    UsersOfAnswer(crypto, store, userId, redacted, closure, a, Serving(caches.users, validity, now));
    RevokedOfAnswer(crypto, store, userId, redacted, closure, a, Serving(caches.revoked, validity, now));
    env := Env(crypto, store.root.value,
      Collect(SuppliedDevices(a), crypto.device, DeviceKey, Serving(caches.devices, validity, now)).value,
      Collect(SuppliedUsers(a), crypto.user, UserKey, Serving(caches.users, validity, now)).value,
      Collect(SuppliedRevoked(a), crypto.revoked, RevokedKey, Serving(caches.revoked, validity, now)).value);
  }

  lemma PartsMirrorStore(
    env: Env, store: Store, redacted: bool, ds: set<DeviceId>, us: set<UserId>, validity: int, now: Timestamp)
    requires store.root == Some(env.root) && us <= store.users.Keys
    requires Collected(env, store, redacted, ds, us, EMPTY_CACHES, validity, now)
    ensures Mirrors(env, store, redacted, ds, us)
  {
  }

  lemma AnswerMirrorsStore(crypto: Crypto, store: Store, userId: UserId, redacted: bool,
                           closure: set<DeviceId>, a: Answer, now: Timestamp, validity: int) returns (env: Env)
    requires CertifsParse(crypto, store, redacted) && store.root.Some? && userId in store.users && Linked(store)
    requires IsAnswer(store, userId, redacted, closure, a)
    ensures Supply(crypto, store.root.value, validity, EMPTY_CACHES, SuppliedUsers(a), SuppliedRevoked(a),
      SuppliedDevices(a), now) == Some(env)
    ensures env.crypto == crypto &&
      Mirrors(env, store, redacted, AnswerDevices(store, userId, closure), AnswerUsers(userId, closure))
  {
    env := AnswerIsCollected(crypto, store, userId, redacted, closure, a, EMPTY_CACHES, now, validity);
    PartsMirrorStore(
      env, store, redacted, AnswerDevices(store, userId, closure), AnswerUsers(userId, closure), validity, now);
  }

  /**
   The end-to-end theorem.  For any valid store and any known user, a client with empty caches
   parses the whole answer, and accepts it if and only if no certificate of the answer is dated
   after the revocation of its author.  That is also the only error it can raise: missing
   certificates, signature loops, self-signatures, bad signatures and authors that are not
   administrators never occur.
   */
  lemma AnswerIsAcceptedUnlessPosterior(crypto: Crypto, store: Store, userId: UserId, redacted: bool,
                                        closure: set<DeviceId>, a: Answer, now: Timestamp, validity: int)
    requires StoreFits(crypto, store) && userId in store.users && Linked(store)
    requires IsAnswer(store, userId, redacted, closure, a)
    ensures store.root.Some?
    ensures var supply :=
      Supply(crypto, store.root.value, validity, EMPTY_CACHES, SuppliedUsers(a), SuppliedRevoked(a),
        SuppliedDevices(a), now);
      && supply.Some? && Fits(supply.value)
      && (Accepted(supply.value) <==>
            NothingAfterRevocation(store, AnswerDevices(store, userId, closure), AnswerUsers(userId, closure)))
      && (LoadError(supply.value).Some? ==> LoadError(supply.value).value.PosteriorToRevocation?)
  {
    var ds, us := AnswerDevices(store, userId, closure), AnswerUsers(userId, closure);
    ValidStoreParses(crypto, store, redacted);
    var env := AnswerMirrorsStore(crypto, store, userId, redacted, closure, a, now, validity);
    AnswerSuppliesCertifiers(store, userId, closure);
    MirrorsAreLinked(env, store, redacted, ds, us);
    LinkedFailsOnDatesOnly(env, store, ds, us);
    if NothingAfterRevocation(store, ds, us) {
      TimelyIsAccepted(env, store, ds, us);
    }
    if Accepted(env) {
      AcceptedIsTimely(env, store, ds, us);
    }
  }

  // ---------- what the client gets ----------

  /** Identifiers that come first and are distinct keep their places. */
  lemma {:induction false} CollectKeepsFirstPlaces<K(!new), C(!new)>(
    certifs: seq<Bytes>, n: nat, parse: Bytes -> Option<C>, key: C -> K, cached: K -> Option<C>)
    requires KeyedBy(cached, key) && n <= |certifs| && Collect(certifs, parse, key, cached).Some?
    requires forall i :: 0 <= i < |certifs| ==> parse(certifs[i]).Some?
    requires forall i, j :: 0 <= i < j < n ==> key(parse(certifs[i]).value) != key(parse(certifs[j]).value)
    ensures var order := Collect(certifs, parse, key, cached).value.order;
      n <= |order| && forall i :: 0 <= i < n ==> order[i] == key(parse(certifs[i]).value)
    ensures n == |certifs| ==> |Collect(certifs, parse, key, cached).value.order| == n
    decreases |certifs|
  {
    if certifs != [] {
      var init := certifs[..|certifs| - 1];
      CollectOneMore(certifs, parse, key, cached);
      CollectKeepsFirstPlaces(init, if n <= |init| then n else |init|, parse, key, cached);
    }
  }

  /** The last certificate adds its identifier at the end, unless it was there. */
  lemma CollectOneMore<K(!new), C(!new)>(
    certifs: seq<Bytes>, parse: Bytes -> Option<C>, key: C -> K, cached: K -> Option<C>)
    requires KeyedBy(cached, key) && certifs != [] && Collect(certifs, parse, key, cached).Some?
    requires forall i :: 0 <= i < |certifs| ==> parse(certifs[i]).Some?
    ensures var init := certifs[..|certifs| - 1];
      && Collect(init, parse, key, cached).Some?
      && var order := Collect(init, parse, key, cached).value.order;
         var k := key(parse(certifs[|certifs| - 1]).value);
         Collect(certifs, parse, key, cached).value.order == if k in order then order else order + [k]
  {
    var init, last := certifs[..|certifs| - 1], certifs[|certifs| - 1];
    CollectedStates(init, parse, key, cached);
    var states := Collect(init, parse, key, cached).value;
    var k := key(parse(last).value);
    assert key(MakeState(last, parse(last).value, key, cached).content) == k;
    assert k in states.order <==> k in states.at;
  }

  function ChainOf(a: Answer): TrustchainCertifs {
    TrustchainCertifs(a.trustchainUsers, a.trustchainRevoked, a.trustchainDevices)
  }

  /** The contents of the user's own certificates, as the store has them. */
  ghost function ExpectedUser(crypto: Crypto, store: Store, userId: UserId, redacted: bool): LoadedUser
    requires CertifsParse(crypto, store, redacted) && Linked(store) && userId in store.users
  {
    var own := DevicesOfUser(store.deviceOrder, userId);
    var user := store.users[userId];
    LoadedUser(crypto.user(UserCertif(user, redacted)).value,
      if user.revokedUserCertificate.Some? then crypto.revoked(user.revokedUserCertificate.value) else None,
      seq(|own|, i requires 0 <= i < |own| => crypto.device(DeviceCertif(store.devices[own[i]], redacted)).value))
  }

  lemma OwnDevicesComeFirst(env: Env, store: Store, userId: UserId, redacted: bool,
                            closure: set<DeviceId>, a: Answer, now: Timestamp, validity: int)
    requires CertifsParse(env.crypto, store, redacted) && userId in store.users && Linked(store) &&
      Distinct(store.deviceOrder)
    requires IsAnswer(store, userId, redacted, closure, a)
    requires Collect(SuppliedDevices(a), env.crypto.device, DeviceKey, Serving(map[], validity, now)) ==
      Some(env.devices)
    ensures var own := DevicesOfUser(store.deviceOrder, userId);
      |own| == |a.deviceCertificates| && |own| <= |env.devices.order| && env.devices.order[..|own|] == own
  {
    var own := DevicesOfUser(store.deviceOrder, userId);
    var certifs := SuppliedDevices(a);
    CollectedStates(certifs, env.crypto.device, DeviceKey, Serving(map[], validity, now));
    forall i | 0 <= i < |own|
      ensures env.crypto.device(certifs[i]).Some? && env.crypto.device(certifs[i]).value.deviceId == own[i]
    {
      OwnCertifIs(env.crypto, store, userId, redacted, closure, a, i);
    }
    CollectKeepsFirstPlaces(certifs, |own|, env.crypto.device, DeviceKey, Serving(map[], validity, now));
  }

  lemma OwnCertifIs(
    crypto: Crypto, store: Store, userId: UserId, redacted: bool, closure: set<DeviceId>, a: Answer, i: nat)
    requires CertifsParse(crypto, store, redacted) && userId in store.users && Linked(store)
    requires IsAnswer(store, userId, redacted, closure, a) && i < |DevicesOfUser(store.deviceOrder, userId)|
    ensures var (own, certifs) := (DevicesOfUser(store.deviceOrder, userId), SuppliedDevices(a));
      && |own| == |a.deviceCertificates| <= |certifs|
      && crypto.device(certifs[i]).Some? && crypto.device(certifs[i]).value.deviceId == own[i]
  {
    var own := DevicesOfUser(store.deviceOrder, userId);
    assert own[i] in own;
    assert SuppliedDevices(a)[i] == a.deviceCertificates[i] == OwnCertifs(store, userId, redacted)[i];
  }

  lemma FirstUserIs(crypto: Crypto, a: Answer, now: Timestamp, validity: int)
    requires Collect(SuppliedUsers(a), crypto.user, UserKey, Serving(map[], validity, now)).Some?
    ensures crypto.user(a.userCertificate).Some?
    ensures var order := Collect(SuppliedUsers(a), crypto.user, UserKey, Serving(map[], validity, now)).value.order;
      |order| > 0 && order[0] == crypto.user(a.userCertificate).value.userId
  {
    CollectedStates(SuppliedUsers(a), crypto.user, UserKey, Serving(map[], validity, now));
    assert SuppliedUsers(a)[0] == a.userCertificate;
    CollectKeepsFirstPlaces(SuppliedUsers(a), 1, crypto.user, UserKey, Serving(map[], validity, now));
  }

  lemma FirstRevokedIs(crypto: Crypto, a: Answer, now: Timestamp, validity: int)
    requires Collect(SuppliedRevoked(a), crypto.revoked, RevokedKey, Serving(map[], validity, now)).Some?
    requires a.revokedUserCertificate.Some?
    ensures crypto.revoked(a.revokedUserCertificate.value).Some?
    ensures var order :=
      Collect(SuppliedRevoked(a), crypto.revoked, RevokedKey, Serving(map[], validity, now)).value.order;
      |order| > 0 && order[0] == crypto.revoked(a.revokedUserCertificate.value).value.userId
  {
    CollectedStates(SuppliedRevoked(a), crypto.revoked, RevokedKey, Serving(map[], validity, now));
    assert SuppliedRevoked(a)[0] == a.revokedUserCertificate.value;
    CollectKeepsFirstPlaces(SuppliedRevoked(a), 1, crypto.revoked, RevokedKey, Serving(map[], validity, now));
  }

  lemma FirstDevicesAre(env: Env, store: Store, userId: UserId, redacted: bool,
                        closure: set<DeviceId>, a: Answer, now: Timestamp, validity: int)
    requires CertifsParse(env.crypto, store, redacted) && userId in store.users && Linked(store) &&
      Distinct(store.deviceOrder)
    requires IsAnswer(store, userId, redacted, closure, a) && Fits(env)
    requires Collect(SuppliedDevices(a), env.crypto.device, DeviceKey, Serving(map[], validity, now)) ==
      Some(env.devices)
    requires forall id :: id in AnswerDevices(store, userId, closure) ==> DeviceMirrored(env, store, redacted, id)
    ensures |a.deviceCertificates| <= |env.devices.order|
    ensures Contents(env.devices)[..|a.deviceCertificates|] == ExpectedUser(env.crypto, store, userId, redacted).devices
    ensures forall d :: d in ExpectedUser(env.crypto, store, userId, redacted).devices ==> d.deviceId.userId == userId
  {
    var own := DevicesOfUser(store.deviceOrder, userId);
    var expected := ExpectedUser(env.crypto, store, userId, redacted).devices;
    OwnDevicesComeFirst(env, store, userId, redacted, closure, a, now, validity);
    forall i | 0 <= i < |own|
      ensures env.devices.order[i] == own[i] && Contents(env.devices)[i] == expected[i] &&
        expected[i].deviceId.userId == userId
    {
      assert own[i] in own && env.devices.order[..|own|][i] == own[i];
      assert DeviceMirrored(env, store, redacted, own[i]);
    }
  }

  lemma FirstContentsAre(
    env: Env, store: Store, userId: UserId, redacted: bool, us: set<UserId>, a: Answer, now: Timestamp, validity: int)
    requires CertifsParse(env.crypto, store, redacted) && Linked(store) && userId in store.users && Fits(env)
    requires userId in us && us <= store.users.Keys && UserMirrored(env, store, redacted, userId)
    requires store.users[userId].revokedUserCertificate.Some? ==> RevocationMirrored(env, store, userId)
    requires a.userCertificate == UserCertif(store.users[userId], redacted)
    requires a.revokedUserCertificate == store.users[userId].revokedUserCertificate
    requires Supply(env.crypto, env.root, validity, EMPTY_CACHES, SuppliedUsers(a), SuppliedRevoked(a),
      SuppliedDevices(a), now) == Some(env)
    ensures |env.users.order| > 0 && Contents(env.users)[0] == ExpectedUser(env.crypto, store, userId, redacted).user
    ensures a.revokedUserCertificate.Some? ==>
      |env.revoked.order| > 0 &&
        Some(Contents(env.revoked)[0]) == ExpectedUser(env.crypto, store, userId, redacted).revokedUser
  {
    FirstUserIs(env.crypto, a, now, validity);
    if a.revokedUserCertificate.Some? {
      FirstRevokedIs(env.crypto, a, now, validity);
    }
  }

  lemma SelectedIs(loaded: Loaded, revokedAsked: bool, n: nat, userId: UserId, expected: LoadedUser)
    requires |loaded.users| > 0 && loaded.users[0] == expected.user && expected.user.userId == userId
    requires revokedAsked ==> |loaded.revokedUsers| > 0
    requires expected.revokedUser == if revokedAsked then Some(loaded.revokedUsers[0]) else None
    requires revokedAsked ==> loaded.revokedUsers[0].userId == userId
    requires n <= |loaded.devices| && loaded.devices[..n] == expected.devices
    requires forall d :: d in expected.devices ==> d.deviceId.userId == userId
    ensures Selected(loaded, revokedAsked, n, Some(userId)) == Ok(expected)
  {
    NoStranger(expected.devices, Some(userId));
  }

  /** The first results are about the user that was asked for, whatever the rest of the trustchain holds. */
  lemma SelectionIsTheUser(env: Env, store: Store, userId: UserId, redacted: bool,
                           closure: set<DeviceId>, a: Answer, now: Timestamp, validity: int)
    requires CertifsParse(env.crypto, store, redacted) && userId in store.users && Linked(store) &&
      Distinct(store.deviceOrder)
    requires IsAnswer(store, userId, redacted, closure, a)
    requires Supply(env.crypto, env.root, validity, EMPTY_CACHES, SuppliedUsers(a), SuppliedRevoked(a),
      SuppliedDevices(a), now) == Some(env)
    requires Mirrors(env, store, redacted, AnswerDevices(store, userId, closure), AnswerUsers(userId, closure))
    ensures |env.users.order| > 0 && (a.revokedUserCertificate.Some? ==> |env.revoked.order| > 0)
    ensures Selected(AllLoaded(env), a.revokedUserCertificate.Some?, |a.deviceCertificates|, Some(userId))
         == Ok(ExpectedUser(env.crypto, store, userId, redacted))
  {
    var us := AnswerUsers(userId, closure);
    assert userId in RevokedUsers(store, us) <==> store.users[userId].revokedUserCertificate.Some?;
    FirstContentsAre(env, store, userId, redacted, us, a, now, validity);
    FirstDevicesAre(env, store, userId, redacted, closure, a, now, validity);
    SelectedIs(AllLoaded(env), a.revokedUserCertificate.Some?, |a.deviceCertificates|, userId,
      ExpectedUser(env.crypto, store, userId, redacted));
  }

  lemma SelectionOfAnswer(crypto: Crypto, store: Store, userId: UserId, redacted: bool,
                          closure: set<DeviceId>, a: Answer, now: Timestamp, validity: int) returns (env: Env)
    requires CertifsParse(crypto, store, redacted) && store.root.Some? && Distinct(store.deviceOrder)
    requires userId in store.users && Linked(store) && IsAnswer(store, userId, redacted, closure, a)
    ensures Supply(crypto, store.root.value, validity, EMPTY_CACHES, SuppliedUsers(a), SuppliedRevoked(a),
      SuppliedDevices(a), now) == Some(env)
    ensures Fits(env) && |env.users.order| > 0 && (a.revokedUserCertificate.Some? ==> |env.revoked.order| > 0)
    ensures Selected(AllLoaded(env), a.revokedUserCertificate.Some?, |a.deviceCertificates|, Some(userId))
         == Ok(ExpectedUser(crypto, store, userId, redacted))
  {
    env := AnswerMirrorsStore(crypto, store, userId, redacted, closure, a, now, validity);
    SelectionIsTheUser(env, store, userId, redacted, closure, a, now, validity);
  }

  /** Everything about loading an answer: its dictionaries, the verdict, the error and the result. */
  lemma LoadingAnAnswer(crypto: Crypto, store: Store, userId: UserId, redacted: bool,
                        closure: set<DeviceId>, a: Answer, now: Timestamp, validity: int) returns (env: Env)
    requires StoreFits(crypto, store) && userId in store.users && Linked(store) && store.root.Some?
    requires IsAnswer(store, userId, redacted, closure, a)
    ensures CertifsParse(crypto, store, redacted) && Fits(env)
    ensures Supply(crypto, store.root.value, validity, EMPTY_CACHES, SuppliedUsers(a), SuppliedRevoked(a),
      SuppliedDevices(a), now) == Some(env)
    ensures Accepted(env) <==>
      NothingAfterRevocation(store, AnswerDevices(store, userId, closure), AnswerUsers(userId, closure))
    ensures DatesOnlyError(LoadError(env))
    ensures |env.users.order| > 0 && (a.revokedUserCertificate.Some? ==> |env.revoked.order| > 0)
    ensures Selected(AllLoaded(env), a.revokedUserCertificate.Some?, |a.deviceCertificates|, Some(userId))
         == Ok(ExpectedUser(crypto, store, userId, redacted))
  {
    assert OrderFits(store);
    ValidStoreParses(crypto, store, redacted);
    AnswerIsAcceptedUnlessPosterior(crypto, store, userId, redacted, closure, a, now, validity);
    env := SelectionOfAnswer(crypto, store, userId, redacted, closure, a, now, validity);
  }

  /** Ask the server, then load the answer in a new trustchain context. */
  method AskAndLoad(server: MemoryUserComponent, userId: UserId, redacted: bool, validity: int, now: Timestamp)
    returns (r: Result<LoadedUser, Error>, ghost closure: set<DeviceId>)
    requires server.Valid() && server.root.Some? && userId in server.users
    ensures var (crypto, store) := (server.crypto, server.Snapshot());
      && Linked(store)
      && IsClosure(store, userId, closure)
      && (r.Ok? <==> NothingAfterRevocation(store, AnswerDevices(store, userId, closure), AnswerUsers(userId, closure)))
      && (r.Err? ==> r.error.PosteriorToRevocation?)
      && CertifsParse(crypto, store, redacted)
      && (r.Ok? ==> r.value == ExpectedUser(crypto, store, userId, redacted))
  {
    var answer: Option<Answer>;
    answer, closure := server.GetUserWithDevices(userId, redacted);
    ghost var env := LoadingAnAnswer(
      server.crypto, server.Snapshot(), userId, redacted, closure, answer.value, now, validity);
    r := LoadFresh(server.crypto, server.root.value, validity, now, answer.value, userId, env);
  }

  method LoadFresh(
    crypto: Crypto, root: VerifyKey, validity: int, now: Timestamp, a: Answer, userId: UserId, ghost env: Env)
    returns (r: Result<LoadedUser, Error>)
    requires Supply(crypto, root, validity, EMPTY_CACHES, SuppliedUsers(a), SuppliedRevoked(a), SuppliedDevices(a),
      now) == Some(env)
    requires Fits(env)
    ensures !Accepted(env) ==> r.Err? && LoadError(env) == Some(r.error)
    ensures Accepted(env) ==>
      && |env.users.order| > 0 && (a.revokedUserCertificate.Some? ==> |env.revoked.order| > 0)
      && r == Selected(AllLoaded(env), a.revokedUserCertificate.Some?, |a.deviceCertificates|, Some(userId))
  {
    var ctx := new TrustchainContext(crypto, root, validity);
    r := ctx.LoadUserAndDevices(ChainOf(a), a.userCertificate, a.revokedUserCertificate, a.deviceCertificates,
      Some(userId), now);
  }
}
