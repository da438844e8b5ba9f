/** The user component of the server: checked creation and revocation, and trustchain extraction. */
module UserComponent {
  import opened Common
  import opened Certificates
  import opened UserStore
  import opened TrustchainExtraction

  datatype Status =
    | Done | NotAllowed | InvalidCertification | InvalidData | BadUserId
    | AlreadyExists | AlreadyRevoked | AlreadyBootstrapped | NotFound

  datatype UserCreateMsg = UserCreateMsg(
    userCertificate: Bytes, deviceCertificate: Bytes, redactedUserCertificate: Bytes, redactedDeviceCertificate: Bytes)

  datatype BootstrapMsg = BootstrapMsg(
    rootVerifyKey: VerifyKey, userCertificate: Bytes, deviceCertificate: Bytes,
    redactedUserCertificate: Option<Bytes>, redactedDeviceCertificate: Option<Bytes>)

  const TIMESTAMP_MAX_DT: int := 30 * 60 * SECOND

  predicate InTheBallpark(a: Timestamp, b: Timestamp) {
    (if a >= b then a - b else b - a) < TIMESTAMP_MAX_DT
  }

  function LoadDevice(crypto: Crypto, certif: Bytes, key: VerifyKey, author: Option<DeviceId>): Option<DeviceContent> {
    VerifyAndLoad(crypto, crypto.device, DeviceHead, certif, key, author)
  }

  function LoadUser(crypto: Crypto, certif: Bytes, key: VerifyKey, author: Option<DeviceId>): Option<UserContent> {
    VerifyAndLoad(crypto, crypto.user, UserHead, certif, key, author)
  }

  predicate IsRedactedUser(redacted: UserContent, content: UserContent) {
    redacted.(humanHandle := content.humanHandle) == content && redacted.humanHandle.None?
  }

  predicate IsRedactedDevice(redacted: DeviceContent, content: DeviceContent) {
    redacted.(deviceLabel := content.deviceLabel) == content && redacted.deviceLabel.None?
  }

  function UserOf(content: UserContent, certif: Bytes, redacted: Bytes): User {
    User(content.userId, content.humanHandle, certif, redacted, content.author, content.profile, content.timestamp,
      None, None, None)
  }

  function DeviceOf(content: DeviceContent, certif: Bytes, redacted: Bytes): Device {
    Device(content.deviceId, content.deviceLabel, certif, redacted, content.author, content.timestamp)
  }

  /** The user that a plain certificate describes is stored with these two certificates and its handle. */
  ghost predicate StoresUser(crypto: Crypto, store: Store, certif: Bytes, redacted: Bytes) {
    && crypto.user(certif).Some?
    && var content := crypto.user(certif).value;
       && content.userId in store.users
       && store.users[content.userId].userCertificate == certif
       && store.users[content.userId].redactedUserCertificate == redacted
       && store.users[content.userId].humanHandle == content.humanHandle
  }

  ghost predicate StoresDevice(crypto: Crypto, store: Store, certif: Bytes, redacted: Bytes) {
    && crypto.device(certif).Some?
    && var content := crypto.device(certif).value;
       && content.deviceId in store.devices
       && store.devices[content.deviceId].deviceCertificate == certif
       && store.devices[content.deviceId].redactedDeviceCertificate == redacted
       && store.devices[content.deviceId].deviceLabel == content.deviceLabel
  }

  /** Less than half an hour apart. */
  ghost predicate Recent(t: Timestamp, now: Timestamp) { -1800 * SECOND < t - now < 1800 * SECOND }

  /** What an accepted creation leaves in the store: a user and its first device, each with both certificates. */
  ghost predicate RecordsUser(
    crypto: Crypto, store: Store, userCertif: Bytes, redactedUser: Bytes, deviceCertif: Bytes, redactedDevice: Bytes,
    now: Timestamp)
  {
    && StoresUser(crypto, store, userCertif, redactedUser) && StoresDevice(crypto, store, deviceCertif, redactedDevice)
    && var (u, d) := (crypto.user(userCertif).value, crypto.device(deviceCertif).value);
       u.userId == d.deviceId.userId && u.timestamp == d.timestamp && Recent(u.timestamp, now)
  }

  /** A first user and device: same instant, same user, a free name and a free handle. */
  ghost predicate FirstDeviceAllowed(store: Store, u: UserContent, d: DeviceContent, now: Timestamp) {
    && u.timestamp == d.timestamp && InTheBallpark(u.timestamp, now) && u.userId == d.deviceId.userId
    && u.userId !in store.users && (u.humanHandle.Some? ==> u.humanHandle.value !in store.handles)
  }

  ghost predicate UserCreateAllowed(
    crypto: Crypto, store: Store, ctx: ClientContext, msg: UserCreateMsg, now: Timestamp)
  {
    var author := Some(ctx.deviceId);
    var u := LoadUser(crypto, msg.userCertificate, ctx.verifyKey, author);
    var d := LoadDevice(crypto, msg.deviceCertificate, ctx.verifyKey, author);
    var ru := LoadUser(crypto, msg.redactedUserCertificate, ctx.verifyKey, author);
    var rd := LoadDevice(crypto, msg.redactedDeviceCertificate, ctx.verifyKey, author);
    && ctx.profile == Admin && u.Some? && d.Some? && ru.Some? && rd.Some?
    && FirstDeviceAllowed(store, u.value, d.value, now)
    && IsRedactedUser(ru.value, u.value) && IsRedactedDevice(rd.value, d.value)
  }

  ghost predicate DeviceCreateAllowed(
    crypto: Crypto, store: Store, ctx: ClientContext, certif: Bytes, redacted: Option<Bytes>, now: Timestamp)
  {
    var d := LoadDevice(crypto, certif, ctx.verifyKey, Some(ctx.deviceId));
    && d.Some? && InTheBallpark(d.value.timestamp, now)
    && d.value.deviceId.userId == ctx.deviceId.userId && d.value.deviceId !in store.devices
    && (redacted.Some? ==>
          var rd := LoadDevice(crypto, redacted.value, ctx.verifyKey, Some(ctx.deviceId));
          rd.Some? && IsRedactedDevice(rd.value, d.value))
  }

  ghost predicate RevokeAllowed(crypto: Crypto, store: Store, ctx: ClientContext, certif: Bytes, now: Timestamp) {
    var r := VerifyAndLoad(crypto, crypto.revoked, RevokedHead, certif, ctx.verifyKey, Some(ctx.deviceId));
    && ctx.profile == Admin && r.Some? && InTheBallpark(r.value.timestamp, now)
    && r.value.userId != ctx.deviceId.userId
    && r.value.userId in store.users && store.users[r.value.userId].revokedOn.None?
  }

  // ---------- what each request answers, refusals in the order of the checks ----------

  function UserCreateStatus(
    crypto: Crypto, store: Store, ctx: ClientContext, msg: UserCreateMsg, now: Timestamp): Status
  {
    var author := Some(ctx.deviceId);
    var u := LoadUser(crypto, msg.userCertificate, ctx.verifyKey, author);
    var d := LoadDevice(crypto, msg.deviceCertificate, ctx.verifyKey, author);
    var ru := LoadUser(crypto, msg.redactedUserCertificate, ctx.verifyKey, author);
    var rd := LoadDevice(crypto, msg.redactedDeviceCertificate, ctx.verifyKey, author);
    if ctx.profile != Admin then NotAllowed
    else if u.None? || d.None? || ru.None? || rd.None? then InvalidCertification
    else if u.value.timestamp != d.value.timestamp then InvalidData
    else if !InTheBallpark(u.value.timestamp, now) then InvalidCertification
    else if u.value.userId != d.value.deviceId.userId then InvalidData
    else if !IsRedactedUser(ru.value, u.value) || !IsRedactedDevice(rd.value, d.value) then InvalidData
    else if IsTaken(store, u.value) then AlreadyExists
    else Done
  }

  /** The user id is known, or the human handle belongs to a user that is not revoked. */
  predicate IsTaken(store: Store, u: UserContent) {
    u.userId in store.users || (u.humanHandle.Some? && u.humanHandle.value in store.handles)
  }

  function DeviceCreateStatus(
    crypto: Crypto, store: Store, ctx: ClientContext, certif: Bytes, redacted: Option<Bytes>, now: Timestamp): Status
  {
    var d := LoadDevice(crypto, certif, ctx.verifyKey, Some(ctx.deviceId));
    var rd := if redacted.Some? then LoadDevice(crypto, redacted.value, ctx.verifyKey, Some(ctx.deviceId)) else d;
    if d.None? || rd.None? then InvalidCertification
    else if !InTheBallpark(d.value.timestamp, now) then InvalidCertification
    else if d.value.deviceId.userId != ctx.deviceId.userId then BadUserId
    else if redacted.Some? && !IsRedactedDevice(rd.value, d.value) then InvalidData
    else if d.value.deviceId in store.devices then AlreadyExists
    else Done
  }

  function RevokeStatus(crypto: Crypto, store: Store, ctx: ClientContext, certif: Bytes, now: Timestamp): Status {
    var r := VerifyAndLoad(crypto, crypto.revoked, RevokedHead, certif, ctx.verifyKey, Some(ctx.deviceId));
    if ctx.profile != Admin then NotAllowed
    else if r.None? || !InTheBallpark(r.value.timestamp, now) then InvalidCertification
    else if r.value.userId == ctx.deviceId.userId then NotAllowed
    else if r.value.userId !in store.users then NotFound
    else if store.users[r.value.userId].revokedOn.Some? then AlreadyRevoked
    else Done
  }

  function BootstrapStatus(crypto: Crypto, store: Store, msg: BootstrapMsg, goodToken: bool, now: Timestamp): Status {
    var u := LoadUser(crypto, msg.userCertificate, msg.rootVerifyKey, None);
    var d := LoadDevice(crypto, msg.deviceCertificate, msg.rootVerifyKey, None);
    var ru := LoadUser(crypto, RedactedUser(msg), msg.rootVerifyKey, None);
    var rd := LoadDevice(crypto, RedactedDevice(msg), msg.rootVerifyKey, None);
    if u.None? || d.None? || ru.None? || rd.None? then InvalidCertification
    else if u.value.profile != Admin || u.value.timestamp != d.value.timestamp then InvalidData
    else if u.value.userId != d.value.deviceId.userId then InvalidData
    else if !InTheBallpark(u.value.timestamp, now) then InvalidCertification
    else if msg.redactedUserCertificate.Some? && !IsRedactedUser(ru.value, u.value) then InvalidData
    else if msg.redactedDeviceCertificate.Some? && !IsRedactedDevice(rd.value, d.value) then InvalidData
    else if msg.redactedUserCertificate.Some? != msg.redactedDeviceCertificate.Some? then InvalidData
    else if store.root.Some? then AlreadyBootstrapped
    else if !goodToken then NotFound
    else Done
  }

  lemma CreatedUserFits(crypto: Crypto, store: Store, key: VerifyKey, author: Option<DeviceId>,
                        userCertif: Bytes, deviceCertif: Bytes, redactedUser: Bytes, redactedDevice: Bytes,
                        now: Timestamp)
    requires author.Some? ==> Authentic(crypto, store, ClientContext(author.value, Admin, key))
    requires author.None? ==> store.root == Some(key)
    requires var u, d := LoadUser(crypto, userCertif, key, author), LoadDevice(crypto, deviceCertif, key, author);
      var ru, rd := LoadUser(crypto, redactedUser, key, author), LoadDevice(crypto, redactedDevice, key, author);
      && u.Some? && d.Some? && ru.Some? && rd.Some? && FirstDeviceAllowed(store, u.value, d.value, now)
      && (IsRedactedUser(ru.value, u.value) || (author.None? && redactedUser == userCertif))
      && (IsRedactedDevice(rd.value, d.value) || redactedDevice == deviceCertif)
    ensures NewUserFits(crypto, store,
      UserOf(crypto.user(userCertif).value, userCertif, redactedUser),
      DeviceOf(crypto.device(deviceCertif).value, deviceCertif, redactedDevice))
  {
  }

  /** The redacted certificates of a bootstrap default to the plain ones. */
  function RedactedUser(msg: BootstrapMsg): Bytes {
    if msg.redactedUserCertificate.Some? then msg.redactedUserCertificate.value else msg.userCertificate
  }

  function RedactedDevice(msg: BootstrapMsg): Bytes {
    if msg.redactedDeviceCertificate.Some? then msg.redactedDeviceCertificate.value else msg.deviceCertificate
  }

  /** The first user, an administrator, signed by the root key that the same request sets. */
  ghost predicate BootstrapAllowed(crypto: Crypto, store: Store, msg: BootstrapMsg, goodToken: bool, now: Timestamp) {
    var u := LoadUser(crypto, msg.userCertificate, msg.rootVerifyKey, None);
    var d := LoadDevice(crypto, msg.deviceCertificate, msg.rootVerifyKey, None);
    var ru := LoadUser(crypto, RedactedUser(msg), msg.rootVerifyKey, None);
    var rd := LoadDevice(crypto, RedactedDevice(msg), msg.rootVerifyKey, None);
    && store.root.None? && goodToken
    && u.Some? && d.Some? && ru.Some? && rd.Some? && u.value.profile == Admin
    && FirstDeviceAllowed(EMPTY_STORE, u.value, d.value, now)
    && (msg.redactedUserCertificate.Some? <==> msg.redactedDeviceCertificate.Some?)
    && (msg.redactedUserCertificate.Some? ==> IsRedactedUser(ru.value, u.value) && IsRedactedDevice(rd.value, d.value))
  }

  function Bootstrapped(crypto: Crypto, msg: BootstrapMsg): Store
    requires crypto.user(msg.userCertificate).Some? && crypto.device(msg.deviceCertificate).Some?
  {
    WithUser(EMPTY_STORE.(root := Some(msg.rootVerifyKey)),
      UserOf(crypto.user(msg.userCertificate).value, msg.userCertificate, RedactedUser(msg)),
      DeviceOf(crypto.device(msg.deviceCertificate).value, msg.deviceCertificate, RedactedDevice(msg)))
  }

  lemma BootstrapFits(crypto: Crypto, store: Store, msg: BootstrapMsg, goodToken: bool, now: Timestamp)
    requires StoreFits(crypto, store) && BootstrapAllowed(crypto, store, msg, goodToken, now)
    ensures StoreFits(crypto, Bootstrapped(crypto, msg)) && Extends(store, Bootstrapped(crypto, msg))
    ensures store.users == map[] && store.devices == map[] && store.deviceOrder == [] && store.handles == map[]
  {
    var seed := EMPTY_STORE.(root := Some(msg.rootVerifyKey));
    CreatedUserFits(crypto, seed, msg.rootVerifyKey, None, msg.userCertificate, msg.deviceCertificate,
      RedactedUser(msg), RedactedDevice(msg), now);
    NewUserKeepsInvariant(crypto, seed,
      UserOf(crypto.user(msg.userCertificate).value, msg.userCertificate, RedactedUser(msg)),
      DeviceOf(crypto.device(msg.deviceCertificate).value, msg.deviceCertificate, RedactedDevice(msg)));
  }

  // ---------- the store after each request, and that it stays valid ----------

  function AfterBootstrap(crypto: Crypto, store: Store, msg: BootstrapMsg, goodToken: bool, now: Timestamp): Store {
    if BootstrapStatus(crypto, store, msg, goodToken, now) == Done then Bootstrapped(crypto, msg) else store
  }

  function AfterUserCreate(
    crypto: Crypto, store: Store, ctx: ClientContext, msg: UserCreateMsg, now: Timestamp): Store
  {
    if UserCreateStatus(crypto, store, ctx, msg, now) != Done then store
    else
      WithUser(store,
        UserOf(crypto.user(msg.userCertificate).value, msg.userCertificate, msg.redactedUserCertificate),
        DeviceOf(crypto.device(msg.deviceCertificate).value, msg.deviceCertificate, msg.redactedDeviceCertificate))
  }

  function AfterDeviceCreate(
    crypto: Crypto, store: Store, ctx: ClientContext, certif: Bytes, redacted: Option<Bytes>, now: Timestamp): Store
  {
    if DeviceCreateStatus(crypto, store, ctx, certif, redacted, now) != Done then store
    else
      WithDevice(store,
        DeviceOf(crypto.device(certif).value, certif, if redacted.Some? then redacted.value else certif))
  }

  function AfterRevoke(crypto: Crypto, store: Store, ctx: ClientContext, certif: Bytes, now: Timestamp): Store {
    if RevokeStatus(crypto, store, ctx, certif, now) != Done then store
    else
      var content := crypto.revoked(certif).value;
      WithRevocation(store, content.userId, content.timestamp, certif, ctx.deviceId)
  }

  lemma BootstrapKeeps(crypto: Crypto, store: Store, msg: BootstrapMsg, goodToken: bool, now: Timestamp)
    requires StoreFits(crypto, store)
    ensures BootstrapStatus(crypto, store, msg, goodToken, now) == Done <==>
      BootstrapAllowed(crypto, store, msg, goodToken, now)
    ensures var later := AfterBootstrap(crypto, store, msg, goodToken, now);
      StoreFits(crypto, later) && Extends(store, later)
    ensures store.root.None? ==> store == EMPTY_STORE
  {
    if BootstrapAllowed(crypto, store, msg, goodToken, now) {
      BootstrapFits(crypto, store, msg, goodToken, now);
    }
  }

  lemma UserCreateIsAllowed(crypto: Crypto, store: Store, ctx: ClientContext, msg: UserCreateMsg, now: Timestamp)
    ensures UserCreateStatus(crypto, store, ctx, msg, now) == Done <==> UserCreateAllowed(crypto, store, ctx, msg, now)
  {
  }

  lemma UserCreateKeeps(crypto: Crypto, store: Store, ctx: ClientContext, msg: UserCreateMsg, now: Timestamp)
    requires StoreFits(crypto, store) && Authentic(crypto, store, ctx)
    ensures var later := AfterUserCreate(crypto, store, ctx, msg, now);
      StoreFits(crypto, later) && Extends(store, later)
  {
    if UserCreateStatus(crypto, store, ctx, msg, now) == Done {
      CreatedUserFits(crypto, store, ctx.verifyKey, Some(ctx.deviceId), msg.userCertificate, msg.deviceCertificate,
        msg.redactedUserCertificate, msg.redactedDeviceCertificate, now);
      NewUserKeepsInvariant(crypto, store,
        UserOf(crypto.user(msg.userCertificate).value, msg.userCertificate, msg.redactedUserCertificate),
        DeviceOf(crypto.device(msg.deviceCertificate).value, msg.deviceCertificate, msg.redactedDeviceCertificate));
    }
  }

  lemma CreatedUserIsStored(crypto: Crypto, store: Store, ctx: ClientContext, msg: UserCreateMsg, now: Timestamp)
    ensures UserCreateStatus(crypto, store, ctx, msg, now) == Done ==>
      RecordsUser(crypto, AfterUserCreate(crypto, store, ctx, msg, now), msg.userCertificate,
        msg.redactedUserCertificate, msg.deviceCertificate, msg.redactedDeviceCertificate, now)
  {
  }

  lemma CreatedDeviceIsStored(
    crypto: Crypto, store: Store, ctx: ClientContext, certif: Bytes, redacted: Option<Bytes>, now: Timestamp)
    requires DeviceCreateStatus(crypto, store, ctx, certif, redacted, now) == Done
    ensures var later := AfterDeviceCreate(crypto, store, ctx, certif, redacted, now);
      && StoresDevice(crypto, later, certif, if redacted.None? then certif else redacted.value)
      && Recent(crypto.device(certif).value.timestamp, now)
  {
  }

  lemma DeviceCreateIsAllowed(
    crypto: Crypto, store: Store, ctx: ClientContext, certif: Bytes, redacted: Option<Bytes>, now: Timestamp)
    ensures DeviceCreateStatus(crypto, store, ctx, certif, redacted, now) == Done <==>
      DeviceCreateAllowed(crypto, store, ctx, certif, redacted, now)
  {
  }

  lemma CreatedDeviceFits(
    crypto: Crypto, store: Store, ctx: ClientContext, certif: Bytes, redacted: Option<Bytes>, now: Timestamp)
    requires Authentic(crypto, store, ctx) && DeviceCreateStatus(crypto, store, ctx, certif, redacted, now) == Done
    ensures NewDeviceFits(crypto, store,
      DeviceOf(crypto.device(certif).value, certif, if redacted.Some? then redacted.value else certif))
  {
  }

  lemma DeviceCreateKeeps(
    crypto: Crypto, store: Store, ctx: ClientContext, certif: Bytes, redacted: Option<Bytes>, now: Timestamp)
    requires StoreFits(crypto, store) && Authentic(crypto, store, ctx)
    ensures var later := AfterDeviceCreate(crypto, store, ctx, certif, redacted, now);
      StoreFits(crypto, later) && Extends(store, later)
  {
    if DeviceCreateStatus(crypto, store, ctx, certif, redacted, now) == Done {
      CreatedDeviceFits(crypto, store, ctx, certif, redacted, now);
      NewDeviceKeepsInvariant(crypto, store,
        DeviceOf(crypto.device(certif).value, certif, if redacted.Some? then redacted.value else certif));
    }
  }

  lemma RevokeIsAllowed(crypto: Crypto, store: Store, ctx: ClientContext, certif: Bytes, now: Timestamp)
    ensures RevokeStatus(crypto, store, ctx, certif, now) == Done <==> RevokeAllowed(crypto, store, ctx, certif, now)
  {
  }

  ghost predicate RecordsRevocation(crypto: Crypto, store: Store, certif: Bytes, now: Timestamp) {
    && crypto.revoked(certif).Some?
    && var content := crypto.revoked(certif).value;
       && Recent(content.timestamp, now) && content.userId in store.users
       && store.users[content.userId].revokedUserCertificate == Some(certif)
       && store.users[content.userId].revokedOn == Some(content.timestamp)
  }

  lemma RevocationIsStored(crypto: Crypto, store: Store, ctx: ClientContext, certif: Bytes, now: Timestamp)
    ensures RevokeStatus(crypto, store, ctx, certif, now) == Done ==>
      RecordsRevocation(crypto, AfterRevoke(crypto, store, ctx, certif, now), certif, now)
  {
  }

  lemma RevokeKeeps(crypto: Crypto, store: Store, ctx: ClientContext, certif: Bytes, now: Timestamp)
    requires StoreFits(crypto, store) && Authentic(crypto, store, ctx)
    ensures var later := AfterRevoke(crypto, store, ctx, certif, now);
      StoreFits(crypto, later) && Extends(store, later)
  {
    if RevokeStatus(crypto, store, ctx, certif, now) == Done {
      var content := crypto.revoked(certif).value;
      RevocationKeepsInvariant(crypto, store, content.userId, content.timestamp, certif, ctx.deviceId);
    }
  }

  // ---------- what an answer discloses ----------

  /** A user certificate bears no handle, unless it is the only one its user has. */
  ghost predicate UserCertifIsDiscreet(crypto: Crypto, store: Store, certif: Bytes) {
    && crypto.user(certif).Some?
    && var content := crypto.user(certif).value;
       && content.userId in store.users
       && (content.humanHandle.Some? ==>
             var user := store.users[content.userId];
             user.userCertifier.None? && user.redactedUserCertificate == user.userCertificate)
  }

  /** A device certificate bears no label, unless it is the only one its device has. */
  ghost predicate DeviceCertifIsDiscreet(crypto: Crypto, store: Store, certif: Bytes) {
    && crypto.device(certif).Some?
    && var content := crypto.device(certif).value;
       && content.deviceId in store.devices
       && (content.deviceLabel.Some? ==>
             var device := store.devices[content.deviceId];
             device.redactedDeviceCertificate == device.deviceCertificate)
  }

  ghost predicate Discreet(crypto: Crypto, store: Store, a: Answer) {
    && (forall c :: c in [a.userCertificate] + a.trustchainUsers ==> UserCertifIsDiscreet(crypto, store, c))
    && (forall c :: c in a.deviceCertificates + a.trustchainDevices ==> DeviceCertifIsDiscreet(crypto, store, c))
  }

  ghost predicate ShowsHandle(crypto: Crypto, store: Store, certif: Bytes) {
    && crypto.user(certif).Some? && crypto.user(certif).value.userId in store.users
    && crypto.user(certif).value.humanHandle == store.users[crypto.user(certif).value.userId].humanHandle
  }

  ghost predicate ShowsLabel(crypto: Crypto, store: Store, certif: Bytes) {
    && crypto.device(certif).Some? && crypto.device(certif).value.deviceId in store.devices
    && crypto.device(certif).value.deviceLabel == store.devices[crypto.device(certif).value.deviceId].deviceLabel
  }

  /** Every certificate bears the stored handle or label; the first one is about the user asked for. */
  ghost predicate Complete(crypto: Crypto, store: Store, userId: UserId, a: Answer) {
    && (forall c :: c in [a.userCertificate] + a.trustchainUsers ==> ShowsHandle(crypto, store, c))
    && (forall c :: c in a.deviceCertificates + a.trustchainDevices ==> ShowsLabel(crypto, store, c))
    && crypto.user(a.userCertificate).Some? && crypto.user(a.userCertificate).value.userId == userId
  }

  /** Every certificate of an answer is one stored for some user or some device. */
  lemma AnswerIsStored(store: Store, userId: UserId, redacted: bool, closure: set<DeviceId>, a: Answer)
    requires userId in store.users && Linked(store) && IsAnswer(store, userId, redacted, closure, a)
    ensures forall c :: c in [a.userCertificate] + a.trustchainUsers ==>
      exists id :: id in store.users && c == UserCertif(store.users[id], redacted)
    ensures forall c :: c in a.deviceCertificates + a.trustchainDevices ==>
      exists id :: id in store.devices && c == DeviceCertif(store.devices[id], redacted)
  {
    forall c | c in [a.userCertificate] + a.trustchainUsers
      ensures exists id :: id in store.users && c == UserCertif(store.users[id], redacted)
    {
      if c in a.trustchainUsers {
        assert c in Elements(a.trustchainUsers);
        var d :| d in closure && c == UserCertif(store.users[d.userId], redacted);
      }
    }
    forall c | c in a.deviceCertificates + a.trustchainDevices
      ensures exists id :: id in store.devices && c == DeviceCertif(store.devices[id], redacted)
    {
      if c in a.trustchainDevices {
        assert c in Elements(a.trustchainDevices);
        var d :| d in closure && c == DeviceCertif(store.devices[d], redacted);
      } else {
        var own := DevicesOfUser(store.deviceOrder, userId);
        var k :| 0 <= k < |own| && c == a.deviceCertificates[k];
        assert own[k] in own;
      }
    }
  }

  lemma StoredUserCertif(crypto: Crypto, store: Store, id: UserId, redacted: bool)
    requires StoreFits(crypto, store) && id in store.users
    ensures var certif := UserCertif(store.users[id], redacted);
      && crypto.user(certif).Some? && crypto.user(certif).value.userId == id
      && (if redacted then UserCertifIsDiscreet(crypto, store, certif) else ShowsHandle(crypto, store, certif))
  {
    assert UserEntryFits(crypto, store, id);
    assert UserShown(crypto, store.users[id]);
  }

  lemma StoredDeviceCertif(crypto: Crypto, store: Store, id: DeviceId, redacted: bool)
    requires StoreFits(crypto, store) && id in store.devices
    ensures var certif := DeviceCertif(store.devices[id], redacted);
      && crypto.device(certif).Some? && crypto.device(certif).value.deviceId == id
      && (if redacted then DeviceCertifIsDiscreet(crypto, store, certif) else ShowsLabel(crypto, store, certif))
  {
    assert DeviceEntryFits(crypto, store, id);
    assert DeviceShown(crypto, store.devices[id]);
  }

  /** A redacted answer discloses no handle and no label that has a redacted certificate to hide it. */
  lemma RedactedAnswerIsDiscreet(crypto: Crypto, store: Store, userId: UserId, closure: set<DeviceId>, a: Answer)
    requires StoreFits(crypto, store) && userId in store.users && Linked(store)
    requires IsAnswer(store, userId, true, closure, a)
    ensures Discreet(crypto, store, a)
  {
    AnswerIsStored(store, userId, true, closure, a);
    forall c | c in [a.userCertificate] + a.trustchainUsers ensures UserCertifIsDiscreet(crypto, store, c) {
      var id :| id in store.users && c == UserCertif(store.users[id], true);
      StoredUserCertif(crypto, store, id, true);
    }
    forall c | c in a.deviceCertificates + a.trustchainDevices ensures DeviceCertifIsDiscreet(crypto, store, c) {
      var id :| id in store.devices && c == DeviceCertif(store.devices[id], true);
      StoredDeviceCertif(crypto, store, id, true);
    }
  }

  /** A plain answer carries every stored handle and label. */
  lemma PlainAnswerIsComplete(crypto: Crypto, store: Store, userId: UserId, closure: set<DeviceId>, a: Answer)
    requires StoreFits(crypto, store) && userId in store.users && Linked(store)
    requires IsAnswer(store, userId, false, closure, a)
    ensures Complete(crypto, store, userId, a)
  {
    AnswerIsStored(store, userId, false, closure, a);
    forall c | c in [a.userCertificate] + a.trustchainUsers ensures ShowsHandle(crypto, store, c) {
      var id :| id in store.users && c == UserCertif(store.users[id], false);
      StoredUserCertif(crypto, store, id, false);
    }
    forall c | c in a.deviceCertificates + a.trustchainDevices ensures ShowsLabel(crypto, store, c) {
      var id :| id in store.devices && c == DeviceCertif(store.devices[id], false);
      StoredDeviceCertif(crypto, store, id, false);
    }
    StoredUserCertif(crypto, store, userId, false);
  }

  class MemoryUserComponent {
    const crypto: Crypto
    var root: Option<VerifyKey>
    var users: map<UserId, User>
    var devices: map<DeviceId, Device>
    var deviceOrder: seq<DeviceId>
    var humanHandleToUserId: map<string, UserId>

    ghost function Snapshot(): Store
      reads this
    {
      Store(root, users, devices, deviceOrder, humanHandleToUserId)
    }

    ghost predicate Valid()
      reads this
    {
      StoreFits(crypto, Snapshot())
    }

    constructor (crypto: Crypto)
      ensures Valid() && Snapshot() == EMPTY_STORE && this.crypto == crypto
    {
      this.crypto := crypto;
      root, users, devices, deviceOrder, humanHandleToUserId := None, map[], map[], [], map[];
    }

    method CreateUser(user: User, firstDevice: Device) returns (ok: bool)
      modifies this
      ensures ok <==>
        && user.userId !in old(users)
        && (user.humanHandle.Some? ==> user.humanHandle.value !in old(humanHandleToUserId))
      ensures Snapshot() == if ok then WithUser(old(Snapshot()), user, firstDevice) else old(Snapshot())
    {
      if user.userId in users { return false; }
      if user.humanHandle.Some? && user.humanHandle.value in humanHandleToUserId { return false; }
      users := users[user.userId := user];
      devices, deviceOrder := devices[firstDevice.deviceId := firstDevice], deviceOrder + [firstDevice.deviceId];
      if user.humanHandle.Some? {
        humanHandleToUserId := humanHandleToUserId[user.humanHandle.value := user.userId];
      }
      return true;
    }

    method CreateDevice(device: Device) returns (status: Status)
      modifies this
      ensures status == if device.deviceId.userId !in old(users) then NotFound
                        else if device.deviceId in old(devices) then AlreadyExists else Done
      ensures Snapshot() == if status == Done then WithDevice(old(Snapshot()), device) else old(Snapshot())
    {
      if device.deviceId.userId !in users { return NotFound; }
      if device.deviceId in devices { return AlreadyExists; }
      devices, deviceOrder := devices[device.deviceId := device], deviceOrder + [device.deviceId];
      return Done;
    }

    /** Releasing the handle of the revoked user cannot fail in a valid store. */
    method RevokeUser(userId: UserId, certificate: Bytes, certifier: DeviceId, revokedOn: Timestamp)
      returns (status: Status)
      requires Valid()
      modifies this
      ensures status == if userId !in old(users) then NotFound
                        else if old(users)[userId].revokedOn.Some? then AlreadyRevoked else Done
      ensures Snapshot() == if status == Done then
        WithRevocation(old(Snapshot()), userId, revokedOn, certificate, certifier) else old(Snapshot())
    {
      if userId !in users { return NotFound; }
      var user := users[userId];
      if user.revokedOn.Some? { return AlreadyRevoked; }
      users := users[userId := user.(revokedOn := Some(revokedOn), revokedUserCertificate := Some(certificate),
        revokedUserCertifier := Some(certifier))];
      if user.humanHandle.Some? {
        assert user.humanHandle.value in humanHandleToUserId;
        humanHandleToUserId := humanHandleToUserId - {user.humanHandle.value};
      }
      return Done;
    }

    /** Bootstrap by the root key: the first user must be an administrator. */
    method Bootstrap(msg: BootstrapMsg, goodToken: bool, now: Timestamp) returns (status: Status)
      requires Valid()
      modifies this
      ensures Valid() && Extends(old(Snapshot()), Snapshot())
      ensures status == BootstrapStatus(crypto, old(Snapshot()), msg, goodToken, now)
      ensures status == Done <==> BootstrapAllowed(crypto, old(Snapshot()), msg, goodToken, now)
      ensures Snapshot() == AfterBootstrap(crypto, old(Snapshot()), msg, goodToken, now)
      ensures status == Done ==>
        && goodToken && old(root).None? && root == Some(msg.rootVerifyKey)
        && RecordsUser(crypto, Snapshot(), msg.userCertificate,
             if msg.redactedUserCertificate.None? then msg.userCertificate else msg.redactedUserCertificate.value,
             msg.deviceCertificate,
             if msg.redactedDeviceCertificate.None? then msg.deviceCertificate else msg.redactedDeviceCertificate.value,
             now)
        && crypto.user(msg.userCertificate).value.profile == Admin
    {
      BootstrapKeeps(crypto, Snapshot(), msg, goodToken, now);
      var u := LoadUser(crypto, msg.userCertificate, msg.rootVerifyKey, None);
      var d := LoadDevice(crypto, msg.deviceCertificate, msg.rootVerifyKey, None);
      if u.None? || d.None? { return InvalidCertification; }
      var ru := LoadUser(crypto, RedactedUser(msg), msg.rootVerifyKey, None);
      var rd := LoadDevice(crypto, RedactedDevice(msg), msg.rootVerifyKey, None);
      if ru.None? || rd.None? { return InvalidCertification; }
      if u.value.profile != Admin { return InvalidData; }
      if u.value.timestamp != d.value.timestamp { return InvalidData; }
      if u.value.userId != d.value.deviceId.userId { return InvalidData; }
      if !InTheBallpark(u.value.timestamp, now) { return InvalidCertification; }
      if msg.redactedUserCertificate.Some? && !IsRedactedUser(ru.value, u.value) { return InvalidData; }
      if msg.redactedDeviceCertificate.Some? && !IsRedactedDevice(rd.value, d.value) { return InvalidData; }
      if msg.redactedUserCertificate.Some? != msg.redactedDeviceCertificate.Some? { return InvalidData; }

      if root.Some? { return AlreadyBootstrapped; }
      if !goodToken { return NotFound; }
      var user := UserOf(u.value, msg.userCertificate, RedactedUser(msg));
      var device := DeviceOf(d.value, msg.deviceCertificate, RedactedDevice(msg));
      var _ := CreateUser(user, device);
      root := Some(msg.rootVerifyKey);
      return Done;
    }

    method ApiUserCreate(ctx: ClientContext, msg: UserCreateMsg, now: Timestamp) returns (status: Status)
      requires Valid() && Authentic(crypto, Snapshot(), ctx)
      modifies this
      ensures Valid() && Extends(old(Snapshot()), Snapshot())
      ensures status == UserCreateStatus(crypto, old(Snapshot()), ctx, msg, now)
      ensures status == Done <==> UserCreateAllowed(crypto, old(Snapshot()), ctx, msg, now)
      ensures Snapshot() == AfterUserCreate(crypto, old(Snapshot()), ctx, msg, now)
      ensures status == Done ==>
        RecordsUser(crypto, Snapshot(), msg.userCertificate, msg.redactedUserCertificate, msg.deviceCertificate,
          msg.redactedDeviceCertificate, now)
    {
      UserCreateIsAllowed(crypto, Snapshot(), ctx, msg, now);
      UserCreateKeeps(crypto, Snapshot(), ctx, msg, now);
      CreatedUserIsStored(crypto, Snapshot(), ctx, msg, now);
      var created := CheckUserCreate(ctx, msg, now);
      if created.Err? { return created.error; }
      var ok := CreateUser(created.value.0, created.value.1);
      return if ok then Done else AlreadyExists;
    }

    /** The checks that need no look at the store, and what is to be stored. */
    method CheckUserCreate(ctx: ClientContext, msg: UserCreateMsg, now: Timestamp)
      returns (r: Result<(User, Device), Status>)
      ensures r.Err? ==> r.error == UserCreateStatus(crypto, Snapshot(), ctx, msg, now) && r.error != Done
      ensures r.Ok? ==>
        && crypto.user(msg.userCertificate).Some? && crypto.device(msg.deviceCertificate).Some?
        && var (u, d) := (crypto.user(msg.userCertificate).value, crypto.device(msg.deviceCertificate).value);
           && UserCreateStatus(crypto, Snapshot(), ctx, msg, now) ==
             (if IsTaken(Snapshot(), u) then AlreadyExists else Done)
           && r.value.0 == UserOf(u, msg.userCertificate, msg.redactedUserCertificate)
           && r.value.1 == DeviceOf(d, msg.deviceCertificate, msg.redactedDeviceCertificate)
    {
      if ctx.profile != Admin { return Err(NotAllowed); }
      var d := LoadDevice(crypto, msg.deviceCertificate, ctx.verifyKey, Some(ctx.deviceId));
      var u := LoadUser(crypto, msg.userCertificate, ctx.verifyKey, Some(ctx.deviceId));
      var ru := LoadUser(crypto, msg.redactedUserCertificate, ctx.verifyKey, Some(ctx.deviceId));
      var rd := LoadDevice(crypto, msg.redactedDeviceCertificate, ctx.verifyKey, Some(ctx.deviceId));
      if d.None? || u.None? || ru.None? || rd.None? { return Err(InvalidCertification); }
      if u.value.timestamp != d.value.timestamp { return Err(InvalidData); }
      if !InTheBallpark(u.value.timestamp, now) { return Err(InvalidCertification); }
      if u.value.userId != d.value.deviceId.userId { return Err(InvalidData); }
      if !IsRedactedUser(ru.value, u.value) { return Err(InvalidData); }
      if !IsRedactedDevice(rd.value, d.value) { return Err(InvalidData); }

      var user := UserOf(u.value, msg.userCertificate, msg.redactedUserCertificate);
      var device := DeviceOf(d.value, msg.deviceCertificate, msg.redactedDeviceCertificate);
      return Ok((user, device));
    }

    method ApiDeviceCreate(ctx: ClientContext, certif: Bytes, redacted: Option<Bytes>, now: Timestamp)
      returns (status: Status)
      requires Valid() && Authentic(crypto, Snapshot(), ctx)
      modifies this
      ensures Valid() && Extends(old(Snapshot()), Snapshot())
      ensures status == DeviceCreateStatus(crypto, old(Snapshot()), ctx, certif, redacted, now)
      ensures status == Done <==> DeviceCreateAllowed(crypto, old(Snapshot()), ctx, certif, redacted, now)
      ensures Snapshot() == AfterDeviceCreate(crypto, old(Snapshot()), ctx, certif, redacted, now)
      ensures status == Done ==>
        && StoresDevice(crypto, Snapshot(), certif, if redacted.None? then certif else redacted.value)
        && Recent(crypto.device(certif).value.timestamp, now)
    {
      DeviceCreateIsAllowed(crypto, Snapshot(), ctx, certif, redacted, now);
      DeviceCreateKeeps(crypto, Snapshot(), ctx, certif, redacted, now);
      if DeviceCreateStatus(crypto, Snapshot(), ctx, certif, redacted, now) == Done {
        CreatedDeviceIsStored(crypto, Snapshot(), ctx, certif, redacted, now);
      }
      var d := LoadDevice(crypto, certif, ctx.verifyKey, Some(ctx.deviceId));
      if d.None? { return InvalidCertification; }
      var rd := if redacted.Some? then LoadDevice(crypto, redacted.value, ctx.verifyKey, Some(ctx.deviceId)) else d;
      if rd.None? { return InvalidCertification; }
      if !InTheBallpark(d.value.timestamp, now) { return InvalidCertification; }
      if d.value.deviceId.userId != ctx.deviceId.userId { return BadUserId; }
      if redacted.Some? && !IsRedactedDevice(rd.value, d.value) { return InvalidData; }

      status := CreateDevice(DeviceOf(d.value, certif, if redacted.Some? then redacted.value else certif));
    }

    method ApiUserRevoke(ctx: ClientContext, certif: Bytes, now: Timestamp) returns (status: Status)
      requires Valid() && Authentic(crypto, Snapshot(), ctx)
      modifies this
      ensures Valid() && Extends(old(Snapshot()), Snapshot())
      ensures status == RevokeStatus(crypto, old(Snapshot()), ctx, certif, now)
      ensures status == Done <==> RevokeAllowed(crypto, old(Snapshot()), ctx, certif, now)
      ensures Snapshot() == AfterRevoke(crypto, old(Snapshot()), ctx, certif, now)
      ensures status == Done ==> RecordsRevocation(crypto, Snapshot(), certif, now)
    {
      RevokeIsAllowed(crypto, Snapshot(), ctx, certif, now);
      RevokeKeeps(crypto, Snapshot(), ctx, certif, now);
      RevocationIsStored(crypto, Snapshot(), ctx, certif, now);
      if ctx.profile != Admin { return NotAllowed; }
      var r := VerifyAndLoad(crypto, crypto.revoked, RevokedHead, certif, ctx.verifyKey, Some(ctx.deviceId));
      if r.None? { return InvalidCertification; }
      if !InTheBallpark(r.value.timestamp, now) { return InvalidCertification; }
      if r.value.userId == ctx.deviceId.userId { return NotAllowed; }
      status := RevokeUser(r.value.userId, certif, ctx.deviceId, r.value.timestamp);
    }

    /** An outsider is answered with redacted certificates, anybody else with the plain ones. */
    method ApiUserGet(ctx: ClientContext, userId: UserId) returns (r: Option<Answer>, ghost closure: set<DeviceId>)
      requires Valid()
      ensures Linked(Snapshot())
      ensures r.None? <==> userId !in users
      ensures r.Some? ==>
        && IsAnswer(Snapshot(), userId, ctx.profile == Outsider, closure, r.value)
        && (if ctx.profile == Outsider then Discreet(crypto, Snapshot(), r.value)
            else Complete(crypto, Snapshot(), userId, r.value))
    {
      r, closure := GetUserWithDevices(userId, ctx.profile == Outsider);
      if r.Some? && ctx.profile == Outsider {
        RedactedAnswerIsDiscreet(crypto, Snapshot(), userId, closure, r.value);
      } else if r.Some? {
        PlainAnswerIsComplete(crypto, Snapshot(), userId, closure, r.value);
      }
    }

    method GetUserWithDevices(userId: UserId, redacted: bool) returns (r: Option<Answer>, ghost closure: set<DeviceId>)
      requires Valid()
      ensures Linked(Snapshot())
      ensures r.None? <==> userId !in users
      ensures r.Some? ==> IsAnswer(Snapshot(), userId, redacted, closure, r.value)
    {
      ValidStoreIsLinked(crypto, Snapshot());
      r, closure := GetUserWithDevicesAndTrustchain(Store(root, users, devices, deviceOrder, humanHandleToUserId),
        userId, redacted);
    }
  }
}
