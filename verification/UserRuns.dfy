/** Every store the server can reach through its checked requests, and what clients make of its answers. */
module UserRuns {
  import opened Common
  import opened Certificates
  import opened Trustchain
  import opened UserStore
  import opened UserComponent
  import opened TrustchainExtraction
  import opened TrustchainLoading
  import opened TrustchainEndToEnd

  datatype Request =
    | BootstrapOrganization(bootstrap: BootstrapMsg, goodToken: bool, now: Timestamp)
    | CreateUser(ctx: ClientContext, user: UserCreateMsg, now: Timestamp)
    | CreateDevice(ctx: ClientContext, certif: Bytes, redacted: Option<Bytes>, now: Timestamp)
    | RevokeUser(ctx: ClientContext, certif: Bytes, now: Timestamp)

  ghost predicate Allowed(crypto: Crypto, store: Store, request: Request) {
    match request
    case BootstrapOrganization(msg, goodToken, now) => BootstrapAllowed(crypto, store, msg, goodToken, now)
    case CreateUser(ctx, msg, now) => Authentic(crypto, store, ctx) && UserCreateAllowed(crypto, store, ctx, msg, now)
    case CreateDevice(ctx, certif, redacted, now) =>
      Authentic(crypto, store, ctx) && DeviceCreateAllowed(crypto, store, ctx, certif, redacted, now)
    case RevokeUser(ctx, certif, now) => Authentic(crypto, store, ctx) && RevokeAllowed(crypto, store, ctx, certif, now)
  }

  /** The store that a request leads to, as the user component leaves it. */
  function After(crypto: Crypto, store: Store, request: Request): Store {
    match request
    case BootstrapOrganization(msg, goodToken, now) => AfterBootstrap(crypto, store, msg, goodToken, now)
    case CreateUser(ctx, msg, now) => AfterUserCreate(crypto, store, ctx, msg, now)
    case CreateDevice(ctx, certif, redacted, now) => AfterDeviceCreate(crypto, store, ctx, certif, redacted, now)
    case RevokeUser(ctx, certif, now) => AfterRevoke(crypto, store, ctx, certif, now)
  }

  /** Refused requests change nothing, so a run lists the allowed ones. */
  ghost predicate IsHistory(crypto: Crypto, stores: seq<Store>, requests: seq<Request>) {
    && |stores| == |requests| + 1
    && stores[0] == EMPTY_STORE
    && forall i :: 0 <= i < |requests| ==> Served(crypto, stores[i], requests[i], stores[i + 1])
  }

  ghost predicate Served(crypto: Crypto, store: Store, request: Request, later: Store) {
    Allowed(crypto, store, request) && later == After(crypto, store, request)
  }

  lemma RequestKeeps(crypto: Crypto, store: Store, request: Request)
    requires StoreFits(crypto, store) && Allowed(crypto, store, request)
    ensures StoreFits(crypto, After(crypto, store, request)) && Extends(store, After(crypto, store, request))
  {
    match request
    case BootstrapOrganization(msg, goodToken, now) => BootstrapKeeps(crypto, store, msg, goodToken, now);
    case CreateUser(ctx, msg, now) => UserCreateKeeps(crypto, store, ctx, msg, now);
    case CreateDevice(ctx, certif, redacted, now) => DeviceCreateKeeps(crypto, store, ctx, certif, redacted, now);
    case RevokeUser(ctx, certif, now) => RevokeKeeps(crypto, store, ctx, certif, now);
  }

  lemma {:induction false} EveryReachedStoreFits(crypto: Crypto, stores: seq<Store>, requests: seq<Request>, i: nat)
    requires IsHistory(crypto, stores, requests) && i < |stores|
    ensures StoreFits(crypto, stores[i])
  {
    if i > 0 {
      EveryReachedStoreFits(crypto, stores, requests, i - 1);
      assert Served(crypto, stores[i - 1], requests[i - 1], stores[i - 1 + 1]);
      RequestKeeps(crypto, stores[i - 1], requests[i - 1]);
    }
  }

  /** A reached store holds all that the earlier ones held; only revocations change what was there. */
  lemma {:induction false} HistoryOnlyExtends(
    crypto: Crypto, stores: seq<Store>, requests: seq<Request>, i: nat, j: nat)
    requires IsHistory(crypto, stores, requests) && i <= j < |stores|
    ensures Extends(stores[i], stores[j])
    decreases j
  {
    if i < j {
      HistoryOnlyExtends(crypto, stores, requests, i, j - 1);
      EveryReachedStoreFits(crypto, stores, requests, j - 1);
      assert Served(crypto, stores[j - 1], requests[j - 1], stores[j - 1 + 1]);
      RequestKeeps(crypto, stores[j - 1], requests[j - 1]);
      ExtendsOn(stores[i], stores[j - 1], stores[j]);
    }
  }

  /**
   For any store reached through the checked requests and any of its users, the answer loads in a client
   with empty caches exactly when none of its certificates is dated after its author's revocation, and
   such a date is the only thing that can be wrong with it.
   */
  lemma EveryReachedAnswerLoads(
    crypto: Crypto, stores: seq<Store>, requests: seq<Request>, i: nat,
    userId: UserId, redacted: bool, closure: set<DeviceId>, a: Answer, now: Timestamp, validity: int)
    requires IsHistory(crypto, stores, requests) && i < |stores|
    requires userId in stores[i].users && Linked(stores[i]) && IsAnswer(stores[i], userId, redacted, closure, a)
    ensures stores[i].root.Some?
    ensures var supply :=
      Supply(crypto, stores[i].root.value, validity, EMPTY_CACHES, SuppliedUsers(a), SuppliedRevoked(a),
        SuppliedDevices(a), now);
      && supply.Some? && Fits(supply.value)
      && (LoadError(supply.value).None? <==>
            NothingAfterRevocation(stores[i], AnswerDevices(stores[i], userId, closure), AnswerUsers(userId, closure)))
      && (LoadError(supply.value).Some? ==> LoadError(supply.value).value.PosteriorToRevocation?)
  {
    EveryReachedStoreFits(crypto, stores, requests, i);
    AnswerIsAcceptedUnlessPosterior(crypto, stores[i], userId, redacted, closure, a, now, validity);
    var supply := Supply(crypto, stores[i].root.value, validity, EMPTY_CACHES, SuppliedUsers(a), SuppliedRevoked(a),
      SuppliedDevices(a), now);
    LoadDecidesAcceptance(supply.value);
  }

  // ---------- who can be seen in a redacted answer ----------

  /** The request stores this user without a redacted certificate. */
  ghost predicate BareUser(crypto: Crypto, request: Request, id: UserId) {
    && request.BootstrapOrganization? && request.bootstrap.redactedUserCertificate.None?
    && crypto.user(request.bootstrap.userCertificate).Some?
    && crypto.user(request.bootstrap.userCertificate).value.userId == id
  }

  /** The request stores this device without a redacted certificate. */
  ghost predicate BareDevice(crypto: Crypto, request: Request, id: DeviceId) {
    match request
    case BootstrapOrganization(msg, _, _) =>
      && msg.redactedDeviceCertificate.None? && crypto.device(msg.deviceCertificate).Some?
      && crypto.device(msg.deviceCertificate).value.deviceId == id
    case CreateDevice(_, certif, redacted, _) =>
      redacted.None? && crypto.device(certif).Some? && crypto.device(certif).value.deviceId == id
    case _ => false
  }

  ghost predicate HandleBared(crypto: Crypto, store: Store, id: UserId) {
    && id in store.users && crypto.user(store.users[id].redactedUserCertificate).Some?
    && crypto.user(store.users[id].redactedUserCertificate).value.humanHandle.Some?
  }

  ghost predicate LabelBared(crypto: Crypto, store: Store, id: DeviceId) {
    && id in store.devices && crypto.device(store.devices[id].redactedDeviceCertificate).Some?
    && crypto.device(store.devices[id].redactedDeviceCertificate).value.deviceLabel.Some?
  }

  lemma RequestBaresUser(crypto: Crypto, store: Store, request: Request, id: UserId)
    requires StoreFits(crypto, store) && Allowed(crypto, store, request)
    requires HandleBared(crypto, After(crypto, store, request), id)
    ensures HandleBared(crypto, store, id) || BareUser(crypto, request, id)
  {
    match request
    case BootstrapOrganization(msg, goodToken, now) => BootstrapKeeps(crypto, store, msg, goodToken, now);
    case _ =>
  }

  lemma RequestBaresDevice(crypto: Crypto, store: Store, request: Request, id: DeviceId)
    requires StoreFits(crypto, store) && Allowed(crypto, store, request)
    requires LabelBared(crypto, After(crypto, store, request), id)
    ensures LabelBared(crypto, store, id) || BareDevice(crypto, request, id)
  {
    match request
    case BootstrapOrganization(msg, goodToken, now) => BootstrapKeeps(crypto, store, msg, goodToken, now);
    case CreateDevice(_, _, _, _) => NewDeviceBares(crypto, store, request, id);
    case _ =>
  }

  lemma NewDeviceBares(crypto: Crypto, store: Store, request: Request, id: DeviceId)
    requires request.CreateDevice? && Allowed(crypto, store, request)
    requires LabelBared(crypto, After(crypto, store, request), id)
    ensures LabelBared(crypto, store, id) || BareDevice(crypto, request, id)
  {
  }

  lemma {:induction false} BaredByBootstrap(
    crypto: Crypto, stores: seq<Store>, requests: seq<Request>, i: nat, id: UserId)
    requires IsHistory(crypto, stores, requests) && i < |stores| && HandleBared(crypto, stores[i], id)
    ensures exists k :: 0 <= k < i && BareUser(crypto, requests[k], id)
  {
    EveryReachedStoreFits(crypto, stores, requests, i - 1);
    assert Served(crypto, stores[i - 1], requests[i - 1], stores[i - 1 + 1]);
    if HandleBared(crypto, stores[i - 1], id) {
      BaredByBootstrap(crypto, stores, requests, i - 1, id);
    } else {
      RequestBaresUser(crypto, stores[i - 1], requests[i - 1], id);
    }
  }

  lemma {:induction false} BaredByRequest(
    crypto: Crypto, stores: seq<Store>, requests: seq<Request>, i: nat, id: DeviceId)
    requires IsHistory(crypto, stores, requests) && i < |stores| && LabelBared(crypto, stores[i], id)
    ensures exists k :: 0 <= k < i && BareDevice(crypto, requests[k], id)
  {
    EveryReachedStoreFits(crypto, stores, requests, i - 1);
    assert Served(crypto, stores[i - 1], requests[i - 1], stores[i - 1 + 1]);
    if LabelBared(crypto, stores[i - 1], id) {
      BaredByRequest(crypto, stores, requests, i - 1, id);
    } else {
      RequestBaresDevice(crypto, stores[i - 1], requests[i - 1], id);
    }
  }

  ghost predicate ShownByBootstrap(crypto: Crypto, requests: seq<Request>, certif: Bytes) {
    && crypto.user(certif).Some?
    && (crypto.user(certif).value.humanHandle.Some? ==>
          exists k :: 0 <= k < |requests| && BareUser(crypto, requests[k], crypto.user(certif).value.userId))
  }

  ghost predicate ShownByRequest(crypto: Crypto, requests: seq<Request>, certif: Bytes) {
    && crypto.device(certif).Some?
    && (crypto.device(certif).value.deviceLabel.Some? ==>
          exists k :: 0 <= k < |requests| && BareDevice(crypto, requests[k], crypto.device(certif).value.deviceId))
  }

  lemma StoredUserIsBared(crypto: Crypto, stores: seq<Store>, requests: seq<Request>, i: nat, id: UserId)
    requires IsHistory(crypto, stores, requests) && i < |stores| && id in stores[i].users
    ensures ShownByBootstrap(crypto, requests[..i], UserCertif(stores[i].users[id], true))
  {
    EveryReachedStoreFits(crypto, stores, requests, i);
    StoredUserCertif(crypto, stores[i], id, true);
    if HandleBared(crypto, stores[i], id) {
      BaredByBootstrap(crypto, stores, requests, i, id);
    }
    assert forall k :: 0 <= k < i ==> requests[..i][k] == requests[k];
  }

  lemma StoredDeviceIsBared(crypto: Crypto, stores: seq<Store>, requests: seq<Request>, i: nat, id: DeviceId)
    requires IsHistory(crypto, stores, requests) && i < |stores| && id in stores[i].devices
    ensures ShownByRequest(crypto, requests[..i], DeviceCertif(stores[i].devices[id], true))
  {
    EveryReachedStoreFits(crypto, stores, requests, i);
    StoredDeviceCertif(crypto, stores[i], id, true);
    if LabelBared(crypto, stores[i], id) {
      BaredByRequest(crypto, stores, requests, i, id);
    }
    assert forall k :: 0 <= k < i ==> requests[..i][k] == requests[k];
  }

  /**
   For any store reached through the checked requests: a redacted answer shows the handle of a user only
   when the bootstrap stored that user without a redacted certificate, and the label of a device only when
   the request that created it had none.
   */
  lemma EveryRedactedAnswerHides(
    crypto: Crypto, stores: seq<Store>, requests: seq<Request>, i: nat, userId: UserId, closure: set<DeviceId>,
    a: Answer)
    requires IsHistory(crypto, stores, requests) && i < |stores|
    requires userId in stores[i].users && Linked(stores[i]) && IsAnswer(stores[i], userId, true, closure, a)
    ensures forall c :: c in [a.userCertificate] + a.trustchainUsers ==>
      ShownByBootstrap(crypto, requests[..i], c)
    ensures forall c :: c in a.deviceCertificates + a.trustchainDevices ==>
      ShownByRequest(crypto, requests[..i], c)
  {
    AnswerIsStored(stores[i], userId, true, closure, a);
    forall c | c in [a.userCertificate] + a.trustchainUsers ensures ShownByBootstrap(crypto, requests[..i], c) {
      var id :| id in stores[i].users && c == UserCertif(stores[i].users[id], true);
      StoredUserIsBared(crypto, stores, requests, i, id);
    }
    forall c | c in a.deviceCertificates + a.trustchainDevices ensures ShownByRequest(crypto, requests[..i], c) {
      var id :| id in stores[i].devices && c == DeviceCertif(stores[i].devices[id], true);
      StoredDeviceIsBared(crypto, stores, requests, i, id);
    }
  }

  /** An answer that is not redacted shows every stored handle and label. */
  lemma EveryPlainAnswerShows(
    crypto: Crypto, stores: seq<Store>, requests: seq<Request>, i: nat, userId: UserId, closure: set<DeviceId>,
    a: Answer)
    requires IsHistory(crypto, stores, requests) && i < |stores|
    requires userId in stores[i].users && Linked(stores[i]) && IsAnswer(stores[i], userId, false, closure, a)
    ensures Complete(crypto, stores[i], userId, a)
  {
    EveryReachedStoreFits(crypto, stores, requests, i);
    PlainAnswerIsComplete(crypto, stores[i], userId, closure, a);
  }
}
