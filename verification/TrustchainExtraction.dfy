/** The server's answer to a client that asks for a user: its certificates and the closure of their certifiers. */
module TrustchainExtraction {
  import opened Common
  import opened Certificates
  import opened Reachability
  import opened UserStore

  /** A device's certifier, and whoever certified or revoked its user. */
  ghost predicate Certifies(store: Store, id: DeviceId, certifier: DeviceId) {
    && id in store.devices && id.userId in store.users
    && Some(certifier) in {
         store.devices[id].deviceCertifier,
         store.users[id.userId].userCertifier,
         store.users[id.userId].revokedUserCertifier}
  }

  ghost function Edges(store: Store): (DeviceId, DeviceId) -> bool {
    (x, y) => Certifies(store, x, y)
  }

  ghost predicate ReachedFrom(store: Store, starts: seq<Option<DeviceId>>, id: DeviceId) {
    exists s :: s in starts && s.Some? && Reaches(Edges(store), s.value, id)
  }

  function UserCertif(user: User, redacted: bool): Bytes {
    if redacted then user.redactedUserCertificate else user.userCertificate
  }

  function DeviceCertif(device: Device, redacted: bool): Bytes {
    if redacted then device.redactedDeviceCertificate else device.deviceCertificate
  }

  datatype Answer = Answer(
    userCertificate: Bytes, revokedUserCertificate: Option<Bytes>, deviceCertificates: seq<Bytes>,
    trustchainDevices: seq<Bytes>, trustchainUsers: seq<Bytes>, trustchainRevoked: seq<Bytes>)

  // ---------- closure properties of a valid store ----------

  /** Every device belongs to a known user, and every certifier is a known device. */
  ghost predicate Linked(store: Store) {
    && (forall id :: id in store.deviceOrder ==> id in store.devices)
    && (forall id :: id in store.devices ==> id.userId in store.users)
    && (forall id {:trigger store.devices[id]} :: id in store.devices ==>
          store.devices[id].deviceCertifier.Some? ==> store.devices[id].deviceCertifier.value in store.devices)
    && (forall id {:trigger store.users[id]} :: id in store.users ==>
          && (store.users[id].userCertifier.Some? ==> store.users[id].userCertifier.value in store.devices)
          && (store.users[id].revokedUserCertifier.Some? ==>
            store.users[id].revokedUserCertifier.value in store.devices))
  }

  lemma ValidStoreIsLinked(crypto: Crypto, store: Store)
    requires StoreFits(crypto, store)
    ensures Linked(store)
  {
    forall id | id in store.users
      ensures store.users[id].userCertifier.Some? ==> store.users[id].userCertifier.value in store.devices
      ensures store.users[id].revokedUserCertifier.Some? ==> store.users[id].revokedUserCertifier.value in store.devices
    {
      assert UserEntryFits(crypto, store, id);
      assert UserCertificateFits(crypto, store, store.users[id], store.users[id].userCertificate);
    }
    forall id | id in store.devices
      ensures id.userId in store.users
      ensures store.devices[id].deviceCertifier.Some? ==> store.devices[id].deviceCertifier.value in store.devices
    {
      assert DeviceEntryFits(crypto, store, id);
      assert DeviceCertificateFits(crypto, store, store.devices[id], store.devices[id].deviceCertificate);
    }
  }

  // ---------- the recursive extraction ----------

  class TrustchainCollector {
    const store: Store
    const redacted: bool
    var trustchainDevices: set<Bytes>
    var trustchainUsers: set<Bytes>
    var trustchainRevokedUsers: set<Bytes>
    var inTrustchain: set<DeviceId>

    /** The certificate sets hold exactly what belongs to the devices met so far. */
    ghost predicate Valid()
      reads this
    {
      && Linked(store)
      && inTrustchain <= store.devices.Keys
      && trustchainDevices == DeviceCertifs(store, inTrustchain, redacted)
      && trustchainUsers == UserCertifs(store, inTrustchain, redacted)
      && trustchainRevokedUsers == RevokedCertifs(store, inTrustchain)
    }

    constructor (store: Store, redacted: bool)
      requires Linked(store)
      ensures Valid() && this.store == store && this.redacted == redacted && inTrustchain == {}
    {
      this.store, this.redacted := store, redacted;
      trustchainDevices, trustchainUsers, trustchainRevokedUsers, inTrustchain := {}, {}, {}, {};
    }

    method Visit(id: DeviceId)
      requires Valid() && id in store.devices
      modifies this
      ensures Valid() && inTrustchain == old(inTrustchain) + {id}
    {
      GrowCertifs(store, inTrustchain, id, redacted);
      var device, user := store.devices[id], store.users[id.userId];
      inTrustchain := inTrustchain + {id};
      trustchainDevices := trustchainDevices + {DeviceCertif(device, redacted)};
      trustchainUsers := trustchainUsers + {UserCertif(user, redacted)};
      if user.revokedUserCertificate.Some? {
        trustchainRevokedUsers := trustchainRevokedUsers + {user.revokedUserCertificate.value};
      }
    }

    /** Visits what is reachable and not visited yet; everything newly visited has its certifiers visited. */
    method ExtractCreators(deviceId: Option<DeviceId>)
      requires Valid() && (deviceId.Some? ==> deviceId.value in store.devices)
      modifies this
      ensures Valid() && old(inTrustchain) <= inTrustchain
      ensures deviceId.Some? ==> deviceId.value in inTrustchain
      ensures AllReached(store, deviceId, inTrustchain - old(inTrustchain))
      ensures CertifiersIn(store, inTrustchain - old(inTrustchain), inTrustchain)
      decreases store.devices.Keys - inTrustchain
    {
      if deviceId.None? || deviceId.value in inTrustchain { return; }
      var id := deviceId.value;
      var device, user := store.devices[id], store.users[id.userId];
      Visit(id);
      ExtractCreators(device.deviceCertifier);
      ghost var first := inTrustchain;
      ExtractCreators(user.revokedUserCertifier);
      ghost var second := inTrustchain;
      ExtractCreators(user.userCertifier);
      LinkReaches(store, id, device.deviceCertifier, first - (old(inTrustchain) + {id}));
      LinkReaches(store, id, user.revokedUserCertifier, second - first);
      LinkReaches(store, id, user.userCertifier, inTrustchain - second);
      ReachesItself(Edges(store), id);
    }
  }

  /** Every device of `found` is reached from `start`. */
  ghost predicate AllReached(store: Store, start: Option<DeviceId>, found: set<DeviceId>) {
    forall id :: id in found ==> start.Some? && Reaches(Edges(store), start.value, id)
  }

  ghost predicate CertifiersIn(store: Store, ids: set<DeviceId>, all: set<DeviceId>) {
    forall id, c :: id in ids && Certifies(store, id, c) ==> c in all
  }

  ghost function DeviceCertifs(store: Store, ids: set<DeviceId>, redacted: bool): set<Bytes>
    requires ids <= store.devices.Keys
  {
    set id | id in ids :: DeviceCertif(store.devices[id], redacted)
  }

  ghost function UserCertifs(store: Store, ids: set<DeviceId>, redacted: bool): set<Bytes>
    requires forall id :: id in ids ==> id.userId in store.users
  {
    set id | id in ids :: UserCertif(store.users[id.userId], redacted)
  }

  ghost function RevokedCertifs(store: Store, ids: set<DeviceId>): set<Bytes>
    requires forall id :: id in ids ==> id.userId in store.users
  {
    set id | id in ids &&
      store.users[id.userId].revokedUserCertificate.Some? :: store.users[id.userId].revokedUserCertificate.value
  }

  ghost function RevokedCertif(store: Store, id: DeviceId): set<Bytes>
    requires Linked(store) && id in store.devices
  {
    match store.users[id.userId].revokedUserCertificate
    case None => {}
    case Some(certif) => {certif}
  }

  lemma GrowRevoked(store: Store, ids: set<DeviceId>, id: DeviceId)
    requires Linked(store) && ids <= store.devices.Keys && id in store.devices
    ensures RevokedCertifs(store, ids + {id}) == RevokedCertifs(store, ids) + RevokedCertif(store, id)
  {
    var all := ids + {id};
    forall c ensures c in RevokedCertifs(store, all) <==> c in RevokedCertifs(store, ids) + RevokedCertif(store, id) {
      if c in RevokedCertif(store, id) {
        assert id in all;
      }
    }
  }

  lemma GrowCertifs(store: Store, ids: set<DeviceId>, id: DeviceId, redacted: bool)
    requires Linked(store) && ids <= store.devices.Keys && id in store.devices
    ensures DeviceCertifs(store, ids + {id}, redacted) ==
      DeviceCertifs(store, ids, redacted) + {DeviceCertif(store.devices[id], redacted)}
    ensures UserCertifs(store, ids + {id}, redacted) ==
      UserCertifs(store, ids, redacted) + {UserCertif(store.users[id.userId], redacted)}
    ensures RevokedCertifs(store, ids + {id}) == RevokedCertifs(store, ids) + RevokedCertif(store, id)
  {
    GrowRevoked(store, ids, id);
  }

  lemma LinkReaches(store: Store, id: DeviceId, certifier: Option<DeviceId>, found: set<DeviceId>)
    requires certifier.Some? ==> Certifies(store, id, certifier.value)
    requires AllReached(store, certifier, found)
    ensures AllReached(store, Some(id), found)
  {
    forall x | x in found ensures Reaches(Edges(store), id, x) {
      Prepend(Edges(store), id, certifier.value, x);
    }
  }

  // ---------- the answer ----------

  /** The devices a user has, in order of creation. */
  function DevicesOfUser(order: seq<DeviceId>, userId: UserId): (r: seq<DeviceId>)
    ensures forall id :: id in r <==> id in order && id.userId == userId
    ensures Distinct(order) ==> Distinct(r)
  {
    if order == [] then []
    else
      var rest := DevicesOfUser(order[1..], userId);
      if order[0].userId == userId then [order[0]] + rest else rest
  }

  ghost function DeviceCertifiers(store: Store, userId: UserId): (r: seq<Option<DeviceId>>)
    requires Linked(store)
  {
    var own := DevicesOfUser(store.deviceOrder, userId);
    seq(|own|, i requires 0 <= i < |own| => store.devices[own[i]].deviceCertifier)
  }

  ghost function StartingPoints(store: Store, userId: UserId): seq<Option<DeviceId>>
    requires userId in store.users && Linked(store)
  {
    [store.users[userId].userCertifier, store.users[userId].revokedUserCertifier] + DeviceCertifiers(store, userId)
  }

  /** After the two certifiers of the user come those of its devices. */
  lemma StartOfDevice(store: Store, userId: UserId, k: nat)
    requires userId in store.users && Linked(store) && k < |DevicesOfUser(store.deviceOrder, userId)|
    ensures var own := DevicesOfUser(store.deviceOrder, userId);
      && k + 2 < |StartingPoints(store, userId)|
      && own[k] in store.devices && StartingPoints(store, userId)[k + 2] == store.devices[own[k]].deviceCertifier
  {
    assert DevicesOfUser(store.deviceOrder, userId)[k] in DevicesOfUser(store.deviceOrder, userId);
  }

  ghost function OwnCertifs(store: Store, userId: UserId, redacted: bool): seq<Bytes>
    requires Linked(store)
  {
    var own := DevicesOfUser(store.deviceOrder, userId);
    seq(|own|, i requires 0 <= i < |own| => DeviceCertif(store.devices[own[i]], redacted))
  }

  /** `closure` is exactly what is reached from the user's certificates along the certifier links. */
  ghost predicate IsClosure(store: Store, userId: UserId, closure: set<DeviceId>)
    requires userId in store.users && Linked(store)
  {
    && closure <= store.devices.Keys
    && forall id :: id in closure <==> ReachedFrom(store, StartingPoints(store, userId), id)
  }

  ghost predicate IsAnswer(store: Store, userId: UserId, redacted: bool, closure: set<DeviceId>, a: Answer)
    requires userId in store.users && Linked(store)
  {
    && IsClosure(store, userId, closure)
    && a.userCertificate == UserCertif(store.users[userId], redacted)
    && a.revokedUserCertificate == store.users[userId].revokedUserCertificate
    && a.deviceCertificates == OwnCertifs(store, userId, redacted)
    && Elements(a.trustchainDevices) == DeviceCertifs(store, closure, redacted)
    && Elements(a.trustchainUsers) == UserCertifs(store, closure, redacted)
    && Elements(a.trustchainRevoked) == RevokedCertifs(store, closure)
  }

  lemma ElementsOfAppend(s: seq<Bytes>, x: Bytes)
    ensures Elements(s + [x]) == Elements(s) + {x}
  {
    forall y ensures y in Elements(s + [x]) <==> y in Elements(s) + {x} {
      assert y in s + [x] <==> y in s || y == x;
    }
  }

  /** A set listed in some order. */
  method TupleOf(s: set<Bytes>) returns (r: seq<Bytes>)
    ensures Elements(r) == s
  {
    r := [];
    var rest := s;
    while rest != {}
      invariant Elements(r) + rest == s
      decreases |rest|
    {
      var x :| x in rest;
      ElementsOfAppend(r, x);
      r, rest := r + [x], rest - {x};
    }
  }

  /** What was collected from the first starting points: they and what they reach, closed under the certifier links. */
  ghost predicate CollectedFrom(store: Store, starts: seq<Option<DeviceId>>, n: nat, collected: set<DeviceId>)
    requires n <= |starts|
  {
    && (forall k :: 0 <= k < n && starts[k].Some? ==> starts[k].value in collected)
    && (forall id :: id in collected ==> ReachedFrom(store, starts, id))
    && CertifiersIn(store, collected, collected)
  }

  lemma CollectedIsClosure(store: Store, starts: seq<Option<DeviceId>>, collected: set<DeviceId>)
    requires CollectedFrom(store, starts, |starts|, collected)
    ensures forall id :: id in collected <==> ReachedFrom(store, starts, id)
  {
    forall id | ReachedFrom(store, starts, id) ensures id in collected {
      var s :| s in starts && s.Some? && Reaches(Edges(store), s.value, id);
      ClosedSetHoldsReached(Edges(store), collected, s.value, id);
    }
  }

  lemma OneMoreStart(store: Store, starts: seq<Option<DeviceId>>, n: nat, before: set<DeviceId>, after: set<DeviceId>)
    requires n < |starts| && before <= after && CollectedFrom(store, starts, n, before)
    requires starts[n].Some? ==> starts[n].value in after
    requires AllReached(store, starts[n], after - before) && CertifiersIn(store, after - before, after)
    ensures CollectedFrom(store, starts, n + 1, after)
  {
    assert starts[n] in starts;
    forall id | id in after ensures ReachedFrom(store, starts, id) {
      assert id in before || id in after - before;
    }
    forall id, c | id in after && Certifies(store, id, c) ensures c in after {
      assert id in before || id in after - before;
    }
  }

  /** Run the extraction from every starting point in turn. */
  method GetTrustchain(store: Store, starts: seq<Option<DeviceId>>, redacted: bool)
    returns (collector: TrustchainCollector)
    requires Linked(store)
    requires forall s :: s in starts && s.Some? ==> s.value in store.devices
    ensures fresh(collector) && collector.Valid() && collector.store == store && collector.redacted == redacted
    ensures forall id :: id in collector.inTrustchain <==> ReachedFrom(store, starts, id)
  {
    collector := new TrustchainCollector(store, redacted);
    for i := 0 to |starts|
      invariant fresh(collector) && collector.Valid() && collector.store == store && collector.redacted == redacted
      invariant CollectedFrom(store, starts, i, collector.inTrustchain)
    {
      ghost var before := collector.inTrustchain;
      collector.ExtractCreators(starts[i]);
      OneMoreStart(store, starts, i, before, collector.inTrustchain);
    }
    CollectedIsClosure(store, starts, collector.inTrustchain);
  }

  lemma StartingPointsAreKnown(store: Store, userId: UserId)
    requires userId in store.users && Linked(store)
    ensures forall s :: s in StartingPoints(store, userId) && s.Some? ==> s.value in store.devices
  {
    var starts := StartingPoints(store, userId);
    forall k | 0 <= k < |starts| && starts[k].Some? ensures starts[k].value in store.devices {
      if k >= 2 {
        StartOfDevice(store, userId, k - 2);
      }
    }
  }

  /** The answer for a known user is made of exactly the closure of its certifiers. */
  method GetUserWithDevicesAndTrustchain(store: Store, userId: UserId, redacted: bool)
    returns (r: Option<Answer>, ghost closure: set<DeviceId>)
    requires Linked(store)
    ensures r.None? <==> userId !in store.users
    ensures r.Some? ==> IsAnswer(store, userId, redacted, closure, r.value)
  {
    if userId !in store.users { return None, {}; }
    var user := store.users[userId];
    var own := DevicesOfUser(store.deviceOrder, userId);
    StartingPointsAreKnown(store, userId);
    var starts := [user.userCertifier, user.revokedUserCertifier]
      + seq(|own|, i requires 0 <= i < |own| => store.devices[own[i]].deviceCertifier);
    var collector := GetTrustchain(store, starts, redacted);
    closure := collector.inTrustchain;
    var devices := TupleOf(collector.trustchainDevices);
    var users := TupleOf(collector.trustchainUsers);
    var revoked := TupleOf(collector.trustchainRevokedUsers);
    var deviceCertifs := seq(|own|, i requires 0 <= i < |own| => DeviceCertif(store.devices[own[i]], redacted));
    assert starts == StartingPoints(store, userId) && deviceCertifs == OwnCertifs(store, userId, redacted);
    r := Some(Answer(UserCertif(user, redacted), user.revokedUserCertificate, deviceCertifs, devices, users, revoked));
  }
}
