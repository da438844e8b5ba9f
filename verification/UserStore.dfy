/** The server's store of users and devices, and what every checked operation keeps true of it. */
module UserStore {
  import opened Common
  import opened Certificates

  datatype User = User(
    userId: UserId, humanHandle: Option<string>,
    userCertificate: Bytes, redactedUserCertificate: Bytes, userCertifier: Option<DeviceId>,
    profile: UserProfile, createdOn: Timestamp,
    revokedOn: Option<Timestamp>, revokedUserCertificate: Option<Bytes>, revokedUserCertifier: Option<DeviceId>)

  datatype Device = Device(
    deviceId: DeviceId, deviceLabel: Option<string>,
    deviceCertificate: Bytes, redactedDeviceCertificate: Bytes, deviceCertifier: Option<DeviceId>,
    createdOn: Timestamp)

  /** One organization: `deviceOrder` lists the devices in order of creation. */
  datatype Store = Store(
    root: Option<VerifyKey>,
    users: map<UserId, User>, devices: map<DeviceId, Device>, deviceOrder: seq<DeviceId>,
    handles: map<string, UserId>)

  const EMPTY_STORE := Store(None, map[], map[], [], map[])

  // ---------- the memory component's own updates ----------

  function WithUser(store: Store, user: User, device: Device): Store {
    store.(
      users := store.users[user.userId := user],
      devices := store.devices[device.deviceId := device],
      deviceOrder := store.deviceOrder + [device.deviceId],
      handles := if user.humanHandle.Some? then store.handles[user.humanHandle.value := user.userId] else store.handles)
  }

  function WithDevice(store: Store, device: Device): Store {
    store.(devices := store.devices[device.deviceId := device], deviceOrder := store.deviceOrder + [device.deviceId])
  }

  function WithRevocation(store: Store, id: UserId, on: Timestamp, certificate: Bytes, certifier: DeviceId): Store
    requires id in store.users
  {
    var user := store.users[id];
    store.(
      users := store.users[id := user.(revokedOn := Some(on), revokedUserCertificate := Some(certificate),
        revokedUserCertifier := Some(certifier))],
      handles := if user.humanHandle.Some? then store.handles - {user.humanHandle.value} else store.handles)
  }

  // ---------- the store invariant ----------

  /** The key a device signs with. */
  ghost function KeyOf(crypto: Crypto, device: Device): VerifyKey
    requires crypto.device(device.deviceCertificate).Some?
  {
    crypto.device(device.deviceCertificate).value.verifyKey
  }

  /** `certif` was signed by the device recorded as its certifier, or by the root key. */
  ghost predicate SignedByCertifier(crypto: Crypto, store: Store, certif: Bytes, certifier: Option<DeviceId>) {
    match certifier
    case None => store.root.Some? && crypto.verifies(store.root.value, certif)
    case Some(a) =>
      && a in store.devices && crypto.device(store.devices[a].deviceCertificate).Some?
      && crypto.verifies(KeyOf(crypto, store.devices[a]), certif)
  }

  ghost predicate IsAdmin(store: Store, id: UserId) {
    id in store.users && store.users[id].profile == Admin
  }

  ghost predicate UserCertificateFits(crypto: Crypto, store: Store, user: User, certif: Bytes) {
    && crypto.user(certif).Some?
    && var content := crypto.user(certif).value;
       && content.userId == user.userId && content.profile == user.profile
       && content.author == user.userCertifier && content.timestamp == user.createdOn
       && SignedByCertifier(crypto, store, certif, user.userCertifier)
  }

  ghost predicate UserFits(crypto: Crypto, store: Store, user: User) {
    && UserCertificateFits(crypto, store, user, user.userCertificate)
    && UserCertificateFits(crypto, store, user, user.redactedUserCertificate)
    && (user.userCertifier.Some? ==>
          user.userCertifier.value.userId != user.userId && IsAdmin(store, user.userCertifier.value.userId))
  }

  ghost predicate RevocationFits(crypto: Crypto, store: Store, user: User) {
    && (user.revokedOn.Some? <==> user.revokedUserCertificate.Some?)
    && (user.revokedOn.Some? <==> user.revokedUserCertifier.Some?)
    && (user.revokedOn.Some? ==>
          && (crypto.revoked(user.revokedUserCertificate.value)
                == Some(RevokedContent(user.revokedUserCertifier, user.revokedOn.value, user.userId)))
          && SignedByCertifier(crypto, store, user.revokedUserCertificate.value, user.revokedUserCertifier)
          && user.revokedUserCertifier.value.userId != user.userId
          && IsAdmin(store, user.revokedUserCertifier.value.userId))
  }

  ghost predicate DeviceCertificateFits(crypto: Crypto, store: Store, device: Device, certif: Bytes) {
    && crypto.device(certif).Some? && crypto.device(device.deviceCertificate).Some?
    && var content := crypto.device(certif).value;
       && content.deviceId == device.deviceId && content.author == device.deviceCertifier
       && content.timestamp == device.createdOn && content.verifyKey == KeyOf(crypto, device)
       && SignedByCertifier(crypto, store, certif, device.deviceCertifier)
  }

  ghost predicate DeviceFits(crypto: Crypto, store: Store, device: Device) {
    && DeviceCertificateFits(crypto, store, device, device.deviceCertificate)
    && DeviceCertificateFits(crypto, store, device, device.redactedDeviceCertificate)
    && device.deviceId.userId in store.users
    && (device.deviceCertifier.Some? ==>
          || device.deviceCertifier.value.userId == device.deviceId.userId
          || IsAdmin(store, device.deviceCertifier.value.userId))
  }

  /** Devices are listed once each, and every device after the one that certified it. */
  ghost predicate OrderFits(store: Store) {
    && Distinct(store.deviceOrder)
    && (forall id :: id in store.deviceOrder <==> id in store.devices)
    && forall i :: 0 <= i < |store.deviceOrder| ==>
         var certifier := store.devices[store.deviceOrder[i]].deviceCertifier;
         certifier.Some? ==> certifier.value in store.deviceOrder[..i]
  }

  /** A human handle is taken exactly while the user that bears it is not revoked. */
  ghost predicate HandlesFit(store: Store) {
    && (forall h :: h in store.handles ==>
          && store.handles[h] in store.users
          && store.users[store.handles[h]].humanHandle == Some(h) && store.users[store.handles[h]].revokedOn.None?)
    && (forall id :: id in store.users && store.users[id].humanHandle.Some? && store.users[id].revokedOn.None? ==>
          && store.users[id].humanHandle.value in store.handles &&
            store.handles[store.users[id].humanHandle.value] == id)
  }

  /** The user is filed under its own identifier, with certificates that fit. */
  ghost predicate UserEntryFits(crypto: Crypto, store: Store, id: UserId)
    requires id in store.users
  {
    var user := store.users[id];
    user.userId == id && UserFits(crypto, store, user) && RevocationFits(crypto, store, user)
  }

  ghost predicate DeviceEntryFits(crypto: Crypto, store: Store, id: DeviceId)
    requires id in store.devices
  {
    store.devices[id].deviceId == id && DeviceFits(crypto, store, store.devices[id])
  }

  ghost predicate UsersFit(crypto: Crypto, store: Store) {
    forall id {:trigger UserEntryFits(crypto, store, id)} :: id in store.users ==> UserEntryFits(crypto, store, id)
  }

  ghost predicate DevicesFit(crypto: Crypto, store: Store) {
    forall id {:trigger DeviceEntryFits(crypto, store, id)} ::
      id in store.devices ==> DeviceEntryFits(crypto, store, id)
  }

  /**
   The plain certificate bears the user's handle.  The redacted one bears none, unless this is the first
   user of the organization and was stored without a redacted certificate.
   */
  ghost predicate UserShown(crypto: Crypto, user: User) {
    && crypto.user(user.userCertificate).Some? && crypto.user(user.redactedUserCertificate).Some?
    && crypto.user(user.userCertificate).value.humanHandle == user.humanHandle
    && (crypto.user(user.redactedUserCertificate).value.humanHandle.Some? ==>
          user.userCertifier.None? && user.redactedUserCertificate == user.userCertificate)
  }

  /** The same for a device and its label; any device may have been stored without a redacted certificate. */
  ghost predicate DeviceShown(crypto: Crypto, device: Device) {
    && crypto.device(device.deviceCertificate).Some? && crypto.device(device.redactedDeviceCertificate).Some?
    && crypto.device(device.deviceCertificate).value.deviceLabel == device.deviceLabel
    && (crypto.device(device.redactedDeviceCertificate).value.deviceLabel.Some? ==>
          device.redactedDeviceCertificate == device.deviceCertificate)
  }

  ghost predicate AllShown(crypto: Crypto, store: Store) {
    && (forall id :: id in store.users ==> UserShown(crypto, store.users[id]))
    && (forall id :: id in store.devices ==> DeviceShown(crypto, store.devices[id]))
  }

  ghost predicate EntriesFit(crypto: Crypto, store: Store) { UsersFit(crypto, store) && DevicesFit(crypto, store) }

  ghost predicate StoreFits(crypto: Crypto, store: Store) {
    && (store.root.None? ==> store == EMPTY_STORE)
    && EntriesFit(crypto, store)
    && OrderFits(store)
    && HandlesFit(store)
    && AllShown(crypto, store)
  }

  // ---------- operations only extend the store ----------

  /** A user changes only once, when it is revoked. */
  ghost predicate UserExtends(user: User, later: User) {
    && later.(revokedOn := user.revokedOn, revokedUserCertificate := user.revokedUserCertificate,
         revokedUserCertifier := user.revokedUserCertifier) == user
    && (user.revokedOn.Some? ==> later == user)
  }

  ghost predicate Extends(store: Store, later: Store) {
    && (store.root.Some? ==> later.root == store.root)
    && (forall id :: id in store.devices ==> id in later.devices && later.devices[id] == store.devices[id])
    && (forall id :: id in store.users ==> id in later.users && UserExtends(store.users[id], later.users[id]))
  }

  lemma ExtendsOn(a: Store, b: Store, c: Store)
    requires Extends(a, b) && Extends(b, c)
    ensures Extends(a, c)
  {
  }

  lemma SignedStays(crypto: Crypto, store: Store, later: Store, certif: Bytes, certifier: Option<DeviceId>)
    requires Extends(store, later) && SignedByCertifier(crypto, store, certif, certifier)
    ensures SignedByCertifier(crypto, later, certif, certifier)
  {
  }

  lemma UserStays(crypto: Crypto, store: Store, later: Store, user: User)
    requires Extends(store, later) && UserFits(crypto, store, user) && RevocationFits(crypto, store, user)
    ensures UserFits(crypto, later, user) && RevocationFits(crypto, later, user)
  {
  }

  lemma DeviceStays(crypto: Crypto, store: Store, later: Store, device: Device)
    requires Extends(store, later) && DeviceFits(crypto, store, device)
    ensures DeviceFits(crypto, later, device)
  {
  }

  /** What the handshake established about a connected client. */
  datatype ClientContext = ClientContext(deviceId: DeviceId, profile: UserProfile, verifyKey: VerifyKey)

  ghost predicate Authentic(crypto: Crypto, store: Store, ctx: ClientContext) {
    && ctx.deviceId in store.devices && crypto.device(store.devices[ctx.deviceId].deviceCertificate).Some?
    && ctx.verifyKey == KeyOf(crypto, store.devices[ctx.deviceId])
    && ctx.deviceId.userId in store.users && ctx.profile == store.users[ctx.deviceId.userId].profile
  }

  /** A connection stays authentic whatever the other connections do to the store meanwhile. */
  lemma AuthenticStays(crypto: Crypto, store: Store, later: Store, ctx: ClientContext)
    requires Extends(store, later) && Authentic(crypto, store, ctx)
    ensures Authentic(crypto, later, ctx)
  {
  }

  // ---------- the invariant is kept ----------

  lemma OrderGrows(store: Store, later: Store, device: Device)
    requires OrderFits(store) && device.deviceId !in store.devices
    requires later.devices == store.devices[device.deviceId := device]
    requires later.deviceOrder == store.deviceOrder + [device.deviceId]
    requires device.deviceCertifier.Some? ==> device.deviceCertifier.value in store.devices
    ensures OrderFits(later)
  {
    forall i | 0 <= i < |later.deviceOrder|
      ensures later.devices[later.deviceOrder[i]].deviceCertifier.Some? ==>
        later.devices[later.deviceOrder[i]].deviceCertifier.value in later.deviceOrder[..i]
    {
      if i < |store.deviceOrder| {
        assert later.deviceOrder[..i] == store.deviceOrder[..i];
        assert store.deviceOrder[i] in store.deviceOrder;
      } else {
        assert later.deviceOrder[..i] == store.deviceOrder;
      }
    }
  }

  lemma UserEntryStays(crypto: Crypto, store: Store, later: Store, id: UserId)
    requires id in store.users && UserEntryFits(crypto, store, id) && Extends(store, later)
    requires id in later.users && later.users[id] == store.users[id]
    ensures UserEntryFits(crypto, later, id)
  {
    UserStays(crypto, store, later, store.users[id]);
  }

  lemma DeviceEntryStays(crypto: Crypto, store: Store, later: Store, id: DeviceId)
    requires id in store.devices && DeviceEntryFits(crypto, store, id) && Extends(store, later)
    ensures DeviceEntryFits(crypto, later, id)
  {
    DeviceStays(crypto, store, later, store.devices[id]);
  }

  lemma HandlesGrow(store: Store, user: User, device: Device)
    requires HandlesFit(store) && user.userId !in store.users && user.revokedOn.None?
    requires user.humanHandle.Some? ==> user.humanHandle.value !in store.handles
    ensures HandlesFit(WithUser(store, user, device))
  {
  }

  /** A user as its creation request describes it: certificates that fit, signed by an administrator or the root key. */
  ghost predicate NewUserFits(crypto: Crypto, store: Store, user: User, device: Device) {
    && user.userId !in store.users && device.deviceId.userId == user.userId
    && (user.humanHandle.Some? ==> user.humanHandle.value !in store.handles)
    && user.userCertifier == device.deviceCertifier
    && (user.userCertifier.Some? ==> IsAdmin(store, user.userCertifier.value.userId))
    && UserCertificateFits(crypto, store, user, user.userCertificate)
    && UserCertificateFits(crypto, store, user, user.redactedUserCertificate)
    && user.revokedOn.None? && user.revokedUserCertificate.None? && user.revokedUserCertifier.None?
    && DeviceCertificateFits(crypto, store, device, device.deviceCertificate)
    && DeviceCertificateFits(crypto, store, device, device.redactedDeviceCertificate)
    && UserShown(crypto, user) && DeviceShown(crypto, device)
  }

  lemma NewUserStays(crypto: Crypto, store: Store, later: Store, user: User, device: Device)
    requires NewUserFits(crypto, store, user, device) && Extends(store, later)
    requires user.userId in later.users
    ensures UserFits(crypto, later, user) && RevocationFits(crypto, later, user)
    ensures DeviceFits(crypto, later, device)
  {
    SignedStays(crypto, store, later, user.userCertificate, user.userCertifier);
    SignedStays(crypto, store, later, user.redactedUserCertificate, user.userCertifier);
    SignedStays(crypto, store, later, device.deviceCertificate, device.deviceCertifier);
    SignedStays(crypto, store, later, device.redactedDeviceCertificate, device.deviceCertifier);
  }

  lemma NewUserUserEntry(crypto: Crypto, store: Store, user: User, device: Device, id: UserId)
    requires NewUserFits(crypto, store, user, device) && Extends(store, WithUser(store, user, device))
    requires id in store.users ==> UserEntryFits(crypto, store, id)
    requires id in WithUser(store, user, device).users
    ensures UserEntryFits(crypto, WithUser(store, user, device), id)
  {
    if id == user.userId {
      NewUserStays(crypto, store, WithUser(store, user, device), user, device);
    } else {
      UserEntryStays(crypto, store, WithUser(store, user, device), id);
    }
  }

  lemma NewUserDeviceEntry(crypto: Crypto, store: Store, user: User, device: Device, id: DeviceId)
    requires NewUserFits(crypto, store, user, device) && Extends(store, WithUser(store, user, device))
    requires id in store.devices ==> DeviceEntryFits(crypto, store, id)
    requires id in WithUser(store, user, device).devices
    ensures DeviceEntryFits(crypto, WithUser(store, user, device), id)
  {
    if id == device.deviceId {
      NewUserStays(crypto, store, WithUser(store, user, device), user, device);
    } else {
      DeviceEntryStays(crypto, store, WithUser(store, user, device), id);
    }
  }

  lemma NewUserUsersFit(crypto: Crypto, store: Store, user: User, device: Device)
    requires UsersFit(crypto, store) && NewUserFits(crypto, store, user, device)
    requires Extends(store, WithUser(store, user, device))
    ensures UsersFit(crypto, WithUser(store, user, device))
  {
    var later := WithUser(store, user, device);
    forall id | id in later.users ensures UserEntryFits(crypto, later, id) {
      NewUserUserEntry(crypto, store, user, device, id);
    }
  }

  lemma NewUserDevicesFit(crypto: Crypto, store: Store, user: User, device: Device)
    requires DevicesFit(crypto, store) && NewUserFits(crypto, store, user, device)
    requires Extends(store, WithUser(store, user, device))
    ensures DevicesFit(crypto, WithUser(store, user, device))
  {
    var later := WithUser(store, user, device);
    forall id | id in later.devices ensures DeviceEntryFits(crypto, later, id) {
      NewUserDeviceEntry(crypto, store, user, device, id);
    }
  }

  lemma NewUserExtends(store: Store, user: User, device: Device)
    requires user.userId !in store.users && device.deviceId !in store.devices
    ensures Extends(store, WithUser(store, user, device))
  {
  }

  lemma NewUserDeviceIsNew(crypto: Crypto, store: Store, user: User, device: Device)
    requires EntriesFit(crypto, store) && NewUserFits(crypto, store, user, device)
    ensures device.deviceId !in store.devices
  {
    assert device.deviceId in store.devices ==> DeviceEntryFits(crypto, store, device.deviceId);
  }

  lemma NewUserKeepsInvariant(crypto: Crypto, store: Store, user: User, device: Device)
    requires StoreFits(crypto, store) && store.root.Some? && NewUserFits(crypto, store, user, device)
    ensures StoreFits(crypto, WithUser(store, user, device)) && Extends(store, WithUser(store, user, device))
  {
    NewUserDeviceIsNew(crypto, store, user, device);
    NewUserExtends(store, user, device);
    NewUserUsersFit(crypto, store, user, device);
    NewUserDevicesFit(crypto, store, user, device);
    OrderGrows(store, WithUser(store, user, device), device);
    HandlesGrow(store, user, device);
  }

  /** A device as its creation request describes it: handled by its own user. */
  ghost predicate NewDeviceFits(crypto: Crypto, store: Store, device: Device) {
    && device.deviceId.userId in store.users && device.deviceId !in store.devices
    && device.deviceCertifier.Some? && device.deviceCertifier.value.userId == device.deviceId.userId
    && DeviceCertificateFits(crypto, store, device, device.deviceCertificate)
    && DeviceCertificateFits(crypto, store, device, device.redactedDeviceCertificate)
    && DeviceShown(crypto, device)
  }

  lemma NewDeviceStays(crypto: Crypto, store: Store, later: Store, device: Device)
    requires NewDeviceFits(crypto, store, device) && Extends(store, later)
    ensures DeviceFits(crypto, later, device)
  {
    SignedStays(crypto, store, later, device.deviceCertificate, device.deviceCertifier);
    SignedStays(crypto, store, later, device.redactedDeviceCertificate, device.deviceCertifier);
  }

  lemma NewDeviceDeviceEntry(crypto: Crypto, store: Store, device: Device, id: DeviceId)
    requires NewDeviceFits(crypto, store, device) && (id in store.devices ==> DeviceEntryFits(crypto, store, id))
    requires id in WithDevice(store, device).devices
    ensures DeviceEntryFits(crypto, WithDevice(store, device), id)
  {
    if id == device.deviceId {
      NewDeviceStays(crypto, store, WithDevice(store, device), device);
    } else {
      DeviceEntryStays(crypto, store, WithDevice(store, device), id);
    }
  }

  lemma NewDeviceEntriesFit(crypto: Crypto, store: Store, device: Device)
    requires EntriesFit(crypto, store) && NewDeviceFits(crypto, store, device)
    ensures EntriesFit(crypto, WithDevice(store, device))
  {
    var later := WithDevice(store, device);
    forall id | id in later.users ensures UserEntryFits(crypto, later, id) {
      UserEntryStays(crypto, store, later, id);
    }
    forall id | id in later.devices ensures DeviceEntryFits(crypto, later, id) {
      NewDeviceDeviceEntry(crypto, store, device, id);
    }
  }

  lemma NewDeviceExtends(store: Store, device: Device)
    requires device.deviceId !in store.devices
    ensures Extends(store, WithDevice(store, device))
  {
  }

  lemma NewDeviceKeepsInvariant(crypto: Crypto, store: Store, device: Device)
    requires StoreFits(crypto, store) && store.root.Some? && NewDeviceFits(crypto, store, device)
    ensures StoreFits(crypto, WithDevice(store, device)) && Extends(store, WithDevice(store, device))
  {
    NewDeviceExtends(store, device);
    NewDeviceEntriesFit(crypto, store, device);
    OrderGrows(store, WithDevice(store, device), device);
    assert HandlesFit(store);
  }

  lemma HandlesShrink(store: Store, id: UserId, on: Timestamp, certif: Bytes, certifier: DeviceId)
    requires HandlesFit(store) && id in store.users && store.users[id].revokedOn.None?
    ensures HandlesFit(WithRevocation(store, id, on, certif, certifier))
  {
  }

  /** A revocation by another user, an administrator, of a user that is not revoked yet. */
  ghost predicate RevocationAllowed(
    crypto: Crypto, store: Store, id: UserId, on: Timestamp, certif: Bytes, certifier: DeviceId)
  {
    && id in store.users && store.users[id].revokedOn.None?
    && crypto.revoked(certif) == Some(RevokedContent(Some(certifier), on, id))
    && SignedByCertifier(crypto, store, certif, Some(certifier))
    && certifier.userId != id && IsAdmin(store, certifier.userId)
  }

  lemma RevocationExtends(store: Store, id: UserId, on: Timestamp, certif: Bytes, certifier: DeviceId)
    requires id in store.users && store.users[id].revokedOn.None?
    ensures Extends(store, WithRevocation(store, id, on, certif, certifier))
  {
  }

  lemma RevocationKeepsOrder(store: Store, id: UserId, on: Timestamp, certif: Bytes, certifier: DeviceId)
    requires id in store.users && OrderFits(store)
    ensures OrderFits(WithRevocation(store, id, on, certif, certifier))
  {
  }

  lemma HandleIsThere(store: Store, id: UserId)
    requires HandlesFit(store) && id in store.users && store.users[id].revokedOn.None?
    ensures store.users[id].humanHandle.Some? ==> store.users[id].humanHandle.value in store.handles
  {
  }

  lemma RevokedUserFits(crypto: Crypto, store: Store, id: UserId, on: Timestamp, certif: Bytes, certifier: DeviceId)
    requires RevocationAllowed(crypto, store, id, on, certif, certifier) && UserEntryFits(crypto, store, id)
    ensures var later := WithRevocation(store, id, on, certif, certifier);
      id in later.users && UserEntryFits(crypto, later, id)
  {
    var later := WithRevocation(store, id, on, certif, certifier);
    UserStays(crypto, store, later, store.users[id]);
    SignedStays(crypto, store, later, certif, Some(certifier));
    assert UserCertificateFits(crypto, later, later.users[id], later.users[id].userCertificate);
  }

  lemma RevocationUserEntry(
    crypto: Crypto, store: Store, id: UserId, on: Timestamp, certif: Bytes, certifier: DeviceId, u: UserId)
    requires RevocationAllowed(crypto, store, id, on, certif, certifier)
    requires u in store.users && UserEntryFits(crypto, store, u)
    ensures UserEntryFits(crypto, WithRevocation(store, id, on, certif, certifier), u)
  {
    if u == id {
      RevokedUserFits(crypto, store, id, on, certif, certifier);
    } else {
      UserEntryStays(crypto, store, WithRevocation(store, id, on, certif, certifier), u);
    }
  }

  lemma RevocationEntriesFit(
    crypto: Crypto, store: Store, id: UserId, on: Timestamp, certif: Bytes, certifier: DeviceId)
    requires EntriesFit(crypto, store) && RevocationAllowed(crypto, store, id, on, certif, certifier)
    ensures EntriesFit(crypto, WithRevocation(store, id, on, certif, certifier))
  {
    var later := WithRevocation(store, id, on, certif, certifier);
    RevocationExtends(store, id, on, certif, certifier);
    forall u | u in later.users ensures UserEntryFits(crypto, later, u) {
      RevocationUserEntry(crypto, store, id, on, certif, certifier, u);
    }
    DevicesStay(crypto, store, later);
  }

  lemma DevicesStay(crypto: Crypto, store: Store, later: Store)
    requires DevicesFit(crypto, store) && Extends(store, later) && later.devices == store.devices
    ensures DevicesFit(crypto, later)
  {
    forall d | d in later.devices ensures DeviceEntryFits(crypto, later, d) {
      DeviceEntryStays(crypto, store, later, d);
    }
  }

  /** The revoked user's handle is always there to be released. */
  lemma RevocationKeepsInvariant(
    crypto: Crypto, store: Store, id: UserId, on: Timestamp, certif: Bytes, certifier: DeviceId)
    requires StoreFits(crypto, store) && RevocationAllowed(crypto, store, id, on, certif, certifier)
    ensures var later := WithRevocation(store, id, on, certif, certifier);
      StoreFits(crypto, later) && Extends(store, later)
    ensures store.users[id].humanHandle.Some? ==> store.users[id].humanHandle.value in store.handles
  {
    HandleIsThere(store, id);
    RevocationExtends(store, id, on, certif, certifier);
    RevocationKeepsOrder(store, id, on, certif, certifier);
    HandlesShrink(store, id, on, certif, certifier);
    RevocationEntriesFit(crypto, store, id, on, certif, certifier);
  }
}
