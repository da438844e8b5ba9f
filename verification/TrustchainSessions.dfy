/**
 A client that keeps its caches while the store grows: it loads answers about any users, redacted or not, one
 after another, and none of them can fail for anything but a date.
 */
module TrustchainSessions {
  import opened Common
  import opened Certificates
  import opened Trustchain
  import opened CertificateCollection
  import opened TrustchainLoading
  import opened UserStore
  import opened TrustchainExtraction
  import opened TrustchainEndToEnd

  // ---------- caches that agree with the store ----------

  ghost predicate DeviceCacheAgrees(crypto: Crypto, store: Store, cache: Cache<DeviceId, DeviceContent>) {
    forall id :: id in cache ==> id in store.devices && DeviceEntryAgrees(crypto, store.devices[id], id, cache[id].1)
  }

  ghost predicate DeviceEntryAgrees(crypto: Crypto, device: Device, id: DeviceId, content: DeviceContent) {
    content.deviceId == id && DeviceAgrees(crypto, device, content)
  }

  ghost predicate UserCacheAgrees(store: Store, cache: Cache<UserId, UserContent>) {
    forall id :: id in cache ==>
      id in store.users && cache[id].1.userId == id && UserAgrees(store.users[id], cache[id].1)
  }

  ghost predicate RevocationCacheAgrees(store: Store, cache: Cache<UserId, RevokedContent>) {
    forall id :: id in cache ==>
      id in store.users && cache[id].1.userId == id && RevocationAgrees(store.users[id], cache[id].1)
  }

  /** What is cached is what the store has recorded, human handles and device labels aside. */
  ghost predicate CachesAgree(crypto: Crypto, store: Store, caches: Caches) {
    && DeviceCacheAgrees(crypto, store, caches.devices)
    && UserCacheAgrees(store, caches.users)
    && RevocationCacheAgrees(store, caches.revoked)
  }

  /** Caches agree with whatever the store grows into: what is recorded stays, and a revocation is final. */
  lemma AgreementStays(crypto: Crypto, store: Store, later: Store, caches: Caches)
    requires CachesAgree(crypto, store, caches) && Extends(store, later)
    ensures CachesAgree(crypto, later, caches)
  {
    forall id | id in caches.revoked
      ensures id in later.users && RevocationAgrees(later.users[id], caches.revoked[id].1)
    {
      assert UserExtends(store.users[id], later.users[id]);
    }
    forall id | id in caches.users ensures id in later.users && UserAgrees(later.users[id], caches.users[id].1) {
      assert UserExtends(store.users[id], later.users[id]);
    }
  }

  // ---------- one load ----------

  lemma CachedDeviceFollows(
    env: Env, store: Store, redacted: bool, ds: set<DeviceId>, caches: Caches, validity: int, now: Timestamp,
    id: DeviceId)
    requires StoreFits(env.crypto, store) && DeviceCacheAgrees(env.crypto, store, caches.devices) && id in ds
    requires DevicesCollected(env.devices, env.crypto, store, redacted, ds, Serving(caches.devices, validity, now))
    ensures DeviceFollows(env, store, redacted, id)
  {
    StoredContentsAgree(env.crypto, store, redacted);
    var content := env.crypto.device(DeviceCertif(store.devices[id], redacted)).value;
    assert DeviceAgrees(env.crypto, store.devices[id], content);
    if Cached(caches.devices, validity, now, id).Some? {
      assert DeviceEntryAgrees(env.crypto, store.devices[id], id, caches.devices[id].1);
    }
  }

  lemma CachedUserFollows(
    env: Env, store: Store, redacted: bool, us: set<UserId>, caches: Caches, validity: int, now: Timestamp, id: UserId)
    requires StoreFits(env.crypto, store) && UserCacheAgrees(store, caches.users) && id in us
    requires UsersCollected(env.users, env.crypto, store, redacted, us, Serving(caches.users, validity, now))
    ensures UserFollows(env, store, redacted, id)
  {
    StoredContentsAgree(env.crypto, store, redacted);
    var content := env.crypto.user(UserCertif(store.users[id], redacted)).value;
    assert UserAgrees(store.users[id], content) && content.userId == id;
  }

  lemma CachedRevocationFollows(
    env: Env, store: Store, rs: set<UserId>, caches: Caches, validity: int, now: Timestamp, id: UserId)
    requires StoreFits(env.crypto, store) && RevocationCacheAgrees(store, caches.revoked) && id in rs
    requires RevokedCollected(env.revoked, env.crypto, store, rs, Serving(caches.revoked, validity, now))
    ensures RevocationFollows(env, store, id)
  {
    StoredContentsAgree(env.crypto, store, false);
    var content := env.crypto.revoked(store.users[id].revokedUserCertificate.value).value;
    assert RevocationAgrees(store.users[id], content) && content.userId == id;
  }

  lemma CollectedFollows(
    env: Env, store: Store, redacted: bool, ds: set<DeviceId>, us: set<UserId>, caches: Caches, validity: int,
    now: Timestamp)
    requires StoreFits(env.crypto, store) && store.root == Some(env.root)
    requires CachesAgree(env.crypto, store, caches) && Collected(env, store, redacted, ds, us, caches, validity, now)
    ensures Follows(env, store, redacted, ds, us)
  {
    forall id | id in ds ensures DeviceFollows(env, store, redacted, id) {
      CachedDeviceFollows(env, store, redacted, ds, caches, validity, now, id);
    }
    forall id | id in us ensures UserFollows(env, store, redacted, id) {
      CachedUserFollows(env, store, redacted, us, caches, validity, now, id);
    }
    forall id | id in RevokedUsers(store, us) ensures RevocationFollows(env, store, id) {
      CachedRevocationFollows(env, store, RevokedUsers(store, us), caches, validity, now, id);
    }
  }

  lemma LoadKeepsDevices(
    env: Env, store: Store, redacted: bool, ds: set<DeviceId>, us: set<UserId>,
    cache: Cache<DeviceId, DeviceContent>, now: Timestamp)
    requires Follows(env, store, redacted, ds, us) && DeviceCacheAgrees(env.crypto, store, cache)
    ensures DeviceCacheAgrees(env.crypto, store, Refreshed(cache, env.devices, now))
  {
    var after := Refreshed(cache, env.devices, now);
    forall id | id in after
      ensures id in store.devices && DeviceEntryAgrees(env.crypto, store.devices[id], id, after[id].1)
    {
      if id in env.devices.at && !env.devices.at[id].verified {
        assert DeviceFollows(env, store, redacted, id);
      }
    }
  }

  lemma LoadKeepsUsers(
    env: Env, store: Store, redacted: bool, ds: set<DeviceId>, us: set<UserId>,
    cache: Cache<UserId, UserContent>, now: Timestamp)
    requires Follows(env, store, redacted, ds, us) && UserCacheAgrees(store, cache)
    ensures UserCacheAgrees(store, Refreshed(cache, env.users, now))
  {
    var after := Refreshed(cache, env.users, now);
    forall id | id in after
      ensures id in store.users && after[id].1.userId == id && UserAgrees(store.users[id], after[id].1)
    {
      if id in env.users.at && !env.users.at[id].verified {
        assert UserFollows(env, store, redacted, id);
      }
    }
  }

  lemma LoadKeepsRevocations(
    env: Env, store: Store, redacted: bool, ds: set<DeviceId>, us: set<UserId>,
    cache: Cache<UserId, RevokedContent>, now: Timestamp)
    requires Follows(env, store, redacted, ds, us) && RevocationCacheAgrees(store, cache)
    ensures RevocationCacheAgrees(store, Refreshed(cache, env.revoked, now))
  {
    var after := Refreshed(cache, env.revoked, now);
    forall id | id in after
      ensures id in store.users && after[id].1.userId == id && RevocationAgrees(store.users[id], after[id].1)
    {
      if id in env.revoked.at && !env.revoked.at[id].verified {
        assert RevocationFollows(env, store, id);
      }
    }
  }

  /** Storing the contents of a load keeps the caches in agreement with the store. */
  lemma LoadKeepsAgreement(
    env: Env, store: Store, redacted: bool, ds: set<DeviceId>, us: set<UserId>, caches: Caches, now: Timestamp)
    requires Follows(env, store, redacted, ds, us) && CachesAgree(env.crypto, store, caches)
    ensures CachesAgree(env.crypto, store, CachesAfter(caches, env, now))
  {
    LoadKeepsDevices(env, store, redacted, ds, us, caches.devices, now);
    LoadKeepsUsers(env, store, redacted, ds, us, caches.users, now);
    LoadKeepsRevocations(env, store, redacted, ds, us, caches.revoked, now);
  }

  ghost function SupplyOf(crypto: Crypto, root: VerifyKey, validity: int, caches: Caches, a: Answer, now: Timestamp):
    Option<Env>
  {
    Supply(crypto, root, validity, caches, SuppliedUsers(a), SuppliedRevoked(a), SuppliedDevices(a), now)
  }

  /**
   Loading an answer on top of caches that agree with the store: the answer parses, it fails for a date only,
   it is accepted when nothing in it is dated after its author's revocation, and the caches agree afterwards.
   */
  lemma CachedLoadFailsOnDatesOnly(
    crypto: Crypto, store: Store, userId: UserId, redacted: bool, closure: set<DeviceId>, a: Answer, caches: Caches,
    now: Timestamp, validity: int)
    requires StoreFits(crypto, store) && userId in store.users && Linked(store)
    requires IsAnswer(store, userId, redacted, closure, a) && CachesAgree(crypto, store, caches)
    ensures store.root.Some?
    ensures var supply := SupplyOf(crypto, store.root.value, validity, caches, a, now);
      && supply.Some? && Fits(supply.value)
      && DatesOnlyError(LoadError(supply.value))
      && (NothingAfterRevocation(store, AnswerDevices(store, userId, closure), AnswerUsers(userId, closure)) ==>
            Accepted(supply.value))
      && CachesAgree(crypto, store, CachesAfter(caches, supply.value, now))
  {
    var ds, us := AnswerDevices(store, userId, closure), AnswerUsers(userId, closure);
    ValidStoreParses(crypto, store, redacted);
    var env := AnswerIsCollected(crypto, store, userId, redacted, closure, a, caches, now, validity);
    CollectedFollows(env, store, redacted, ds, us, caches, validity, now);
    AnswerSuppliesCertifiers(store, userId, closure);
    FollowersAreLinked(env, store, redacted, ds, us);
    LinkedFailsOnDatesOnly(env, store, ds, us);
    LoadKeepsAgreement(env, store, redacted, ds, us, caches, now);
    if NothingAfterRevocation(store, ds, us) {
      TimelyIsAccepted(env, store, ds, us);
    }
  }

  // ---------- a whole session ----------

  /** One thing a client does, while the store is as given. */
  datatype Deed =
    | Load(store: Store, userId: UserId, redacted: bool, closure: set<DeviceId>, answer: Answer, now: Timestamp)
    | Forget(store: Store, userId: UserId)

  /** A load asks about a known user and gets the server's answer. */
  ghost predicate IsServed(deed: Deed) {
    deed.Load? ==>
      && deed.userId in deed.store.users && Linked(deed.store)
      && IsAnswer(deed.store, deed.userId, deed.redacted, deed.closure, deed.answer)
  }

  /** An accepted load stores what it verified, a failed one nothing. */
  ghost predicate IsAfterLoad(supply: Option<Env>, now: Timestamp, before: Caches, after: Caches) {
    if supply.Some? && Fits(supply.value) && LoadError(supply.value).None? then
      after == CachesAfter(before, supply.value, now)
    else after == before
  }

  ghost predicate IsAfterDeed(
    crypto: Crypto, root: VerifyKey, validity: int, before: Caches, deed: Deed, after: Caches)
  {
    match deed
    case Forget(_, userId) => after == before.(users := before.users - {userId})
    case Load(_, _, _, _, a, now) => IsAfterLoad(SupplyOf(crypto, root, validity, before, a, now), now, before, after)
  }

  /** Deed `i` happens on a valid store that extends the one before, and has the effect it has. */
  ghost predicate HappensAt(
    crypto: Crypto, root: VerifyKey, validity: int, deeds: seq<Deed>, caches: seq<Caches>, i: nat)
    requires i < |deeds| && |caches| == |deeds| + 1
  {
    && StoreFits(crypto, deeds[i].store) && deeds[i].store.root == Some(root)
    && IsServed(deeds[i])
    && (i > 0 ==> Extends(deeds[i - 1].store, deeds[i].store))
    && IsAfterDeed(crypto, root, validity, caches[i], deeds[i], caches[i + 1])
  }

  /** Deeds on a store that only grows, from empty caches. */
  ghost predicate IsSession(crypto: Crypto, root: VerifyKey, validity: int, deeds: seq<Deed>, caches: seq<Caches>) {
    && |caches| == |deeds| + 1
    && caches[0] == EMPTY_CACHES
    && forall i :: 0 <= i < |deeds| ==> HappensAt(crypto, root, validity, deeds, caches, i)
  }

  lemma DeedKeepsAgreement(crypto: Crypto, root: VerifyKey, validity: int, before: Caches, deed: Deed, after: Caches)
    requires StoreFits(crypto, deed.store) && deed.store.root == Some(root) && IsServed(deed)
    requires CachesAgree(crypto, deed.store, before) && IsAfterDeed(crypto, root, validity, before, deed, after)
    ensures CachesAgree(crypto, deed.store, after)
  {
    match deed
    case Forget(_, _) =>
    case Load(store, userId, redacted, closure, a, now) =>
      CachedLoadFailsOnDatesOnly(crypto, store, userId, redacted, closure, a, before, now, validity);
  }

  lemma NextDeedKeepsAgreement(
    crypto: Crypto, root: VerifyKey, validity: int, deeds: seq<Deed>, caches: seq<Caches>, i: nat)
    requires IsSession(crypto, root, validity, deeds, caches) && 0 < i < |deeds|
    requires CachesAgree(crypto, deeds[i - 1].store, caches[i - 1])
    ensures CachesAgree(crypto, deeds[i].store, caches[i])
  {
    assert HappensAt(crypto, root, validity, deeds, caches, i - 1);
    assert HappensAt(crypto, root, validity, deeds, caches, i);
    DeedKeepsAgreement(crypto, root, validity, caches[i - 1], deeds[i - 1], caches[i]);
    AgreementStays(crypto, deeds[i - 1].store, deeds[i].store, caches[i]);
  }

  lemma {:induction false} SessionCachesAgree(
    crypto: Crypto, root: VerifyKey, validity: int, deeds: seq<Deed>, caches: seq<Caches>, i: nat)
    requires IsSession(crypto, root, validity, deeds, caches) && i < |deeds|
    ensures CachesAgree(crypto, deeds[i].store, caches[i])
  {
    if i > 0 {
      SessionCachesAgree(crypto, root, validity, deeds, caches, i - 1);
      NextDeedKeepsAgreement(crypto, root, validity, deeds, caches, i);
    }
  }

  /**
   In any session, whatever was loaded, cached, expired or invalidated before, the next answer fails for a date
   only, and is accepted when no certificate in it is dated after its author's revocation.
   */
  lemma EveryLoadFailsOnDatesOnly(
    crypto: Crypto, root: VerifyKey, validity: int, deeds: seq<Deed>, caches: seq<Caches>, i: nat)
    requires IsSession(crypto, root, validity, deeds, caches) && i < |deeds| && deeds[i].Load?
    ensures IsServed(deeds[i])
    ensures var (d, supply) := (deeds[i], SupplyOf(crypto, root, validity, caches[i], deeds[i].answer, deeds[i].now));
      && supply.Some? && Fits(supply.value)
      && (LoadError(supply.value).Some? ==> LoadError(supply.value).value.PosteriorToRevocation?)
      && (NothingAfterRevocation(
            d.store, AnswerDevices(d.store, d.userId, d.closure), AnswerUsers(d.userId, d.closure)) ==>
              LoadError(supply.value).None?)
  {
    SessionCachesAgree(crypto, root, validity, deeds, caches, i);
    var d := deeds[i];
    assert HappensAt(crypto, root, validity, deeds, caches, i);
    CachedLoadFailsOnDatesOnly(crypto, d.store, d.userId, d.redacted, d.closure, d.answer, caches[i], d.now, validity);
    LoadDecidesAcceptance(SupplyOf(crypto, root, validity, caches[i], d.answer, d.now).value);
  }
}
