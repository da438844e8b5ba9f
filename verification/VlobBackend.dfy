/**
 The state that the realm and vlob components share, what each operation may answer, and what it
 does to that state.  `log` is the full update log, which only the database backend keeps; here it
 is the reference that the compacted change index is compared with.
 */
module VlobBackend {
  import opened Common
  import opened Certificates
  import opened RealmRoles
  import opened ReencryptionModel
  import opened ChangeIndex

  type OrganizationId = string

  datatype OrgRealm = OrgRealm(org: OrganizationId, realm: RealmId)
  datatype OrgVlob = OrgVlob(org: OrganizationId, vlob: VlobId)
  datatype OrgUser = OrgUser(org: OrganizationId, user: UserId)

  datatype MaintenanceType = GarbageCollection | ReencryptionMaintenance

  datatype RealmStatus = RealmStatus(
    maintenanceType: Option<MaintenanceType>, maintenanceStartedOn: Option<Timestamp>,
    maintenanceStartedBy: Option<DeviceId>, encryptionRevision: int)
  {
    predicate InMaintenance() { maintenanceType.Some? }
  }

  datatype Realm = Realm(status: RealmStatus, grantedRoles: seq<GrantedRole>)

  datatype Changes = Changes(checkpoint: nat, changes: Index, reencryption: Option<State>)

  type Realms = map<OrgRealm, Realm>
  type AllVlobs = map<OrgVlob, Vlob>
  type AllChanges = map<OrgRealm, Changes>
  type Logs = map<OrgRealm, seq<Row>>

  datatype Backend = Backend(realms: Realms, vlobs: AllVlobs, changes: AllChanges, log: Logs)

  datatype UserInfo = UserInfo(profile: UserProfile, revokedOn: Option<Timestamp>)
  type Users = map<OrgUser, UserInfo>

  const NOT_IN_MAINTENANCE := RealmStatus(None, None, None, 1)

  const NO_BACKEND := Backend(map[], map[], map[], map[])

  datatype VlobError =
    | VlobNotFound | VlobAccess | VlobInMaintenance | VlobNotInMaintenance | VlobEncryptionRevision
    | VlobAlreadyExists | VlobVersion | VlobTimestamp

  datatype RealmError =
    | RealmNotFound | RealmAlreadyExists | RealmIncompatibleProfile | RealmInMaintenance | RealmNotInMaintenance
    | RealmAccess | RealmRoleAlreadyGranted | RealmEncryptionRevision | RealmParticipantsMismatch | RealmMaintenance
    | UserNotFound

  // ---------- views ----------

  /** A realm nobody asked about yet has the default record. */
  function ChangesOf(changes: AllChanges, r: OrgRealm): Changes {
    if r in changes then changes[r] else Changes(0, map[], None)
  }

  function LogOf(log: Logs, r: OrgRealm): seq<Row> {
    if r in log then log[r] else []
  }

  predicate InRealm(vlobs: AllVlobs, r: OrgRealm, id: VlobId) {
    OrgVlob(r.org, id) in vlobs && vlobs[OrgVlob(r.org, id)].realmId == r.realm
  }

  function RealmVlobs(vlobs: AllVlobs, r: OrgRealm): (m: Vlobs)
    ensures forall id :: id in m <==> InRealm(vlobs, r, id)
    ensures forall id :: id in m ==> InRealm(vlobs, r, id) && m[id] == vlobs[OrgVlob(r.org, id)]
  {
    map k | k in vlobs && k.org == r.org && vlobs[k].realmId == r.realm :: k.vlob := vlobs[k]
  }

  function CurrentVersions(vlobs: Vlobs): Versions {
    map id | id in vlobs :: |vlobs[id].data|
  }

  function RolesOf(realm: Realm): Roles { RolesByDate(realm.grantedRoles) }

  // ---------- access checks ----------

  const CAN_READ: set<RealmRole> := {Owner, Manager, Contributor, Reader}
  const CAN_WRITE: set<RealmRole> := {Owner, Manager, Contributor}
  const CAN_MAINTAIN: set<RealmRole> := {Owner}

  function AccessError(
    realms: Realms, r: OrgRealm, user: UserId, revision: Option<int>, allowed: set<RealmRole>,
    maintenance: bool): Option<VlobError>
  {
    if r !in realms then Some(VlobNotFound)
    else if user !in RolesOf(realms[r]) || RolesOf(realms[r])[user] !in allowed then Some(VlobAccess)
    else if !maintenance && realms[r].status.InMaintenance() then Some(VlobInMaintenance)
    else if maintenance && !realms[r].status.InMaintenance() then Some(VlobNotInMaintenance)
    else if revision.Some? && revision.value != realms[r].status.encryptionRevision then Some(VlobEncryptionRevision)
    else None
  }

  // ---------- what an operation does when it is accepted ----------

  function WithRealm(b: Backend, r: OrgRealm, realm: Realm): Backend {
    b.(realms := b.realms[r := realm])
  }

  function WithVlob(b: Backend, v: OrgVlob, vlob: Vlob): Backend {
    b.(vlobs := b.vlobs[v := vlob])
  }

  /** The change takes the next checkpoint, and becomes the last change of its vlob. */
  function WithChange(b: Backend, author: DeviceId, r: OrgRealm, id: VlobId, version: int): Backend {
    var c := ChangesOf(b.changes, r);
    b.(
      changes := b.changes[r := c.(checkpoint := c.checkpoint + 1,
        changes := c.changes[id := Change(author, c.checkpoint + 1, version)])],
      log := b.log[r := LogOf(b.log, r) + [Row(id, version, author)]])
  }

  /** Looking a record up creates the default one. */
  function Touched(b: Backend, r: OrgRealm): Backend {
    b.(changes := b.changes[r := ChangesOf(b.changes, r)])
  }

  function Created(b: Backend, org: OrganizationId, author: DeviceId, realm: RealmId, id: VlobId, atom: Atom): Backend {
    WithChange(WithVlob(b, OrgVlob(org, id), Vlob(realm, [atom])), author, OrgRealm(org, realm), id, 1)
  }

  function Updated(b: Backend, org: OrganizationId, author: DeviceId, id: VlobId, atom: Atom): Backend
    requires OrgVlob(org, id) in b.vlobs
  {
    var vlob := b.vlobs[OrgVlob(org, id)];
    WithChange(
      WithVlob(b, OrgVlob(org, id), vlob.(data := vlob.data + [atom])), author, OrgRealm(org, vlob.realmId), id,
        |vlob.data| + 1)
  }

  function WithReencryption(b: Backend, r: OrgRealm, reencryption: Option<State>): Backend {
    b.(changes := b.changes[r := ChangesOf(b.changes, r).(reencryption := reencryption)])
  }

  function MaintenanceStatus(author: DeviceId, timestamp: Timestamp, revision: int): RealmStatus {
    RealmStatus(Some(ReencryptionMaintenance), Some(timestamp), Some(author), revision)
  }

  function Started(b: Backend, r: OrgRealm, author: DeviceId, timestamp: Timestamp, s: State): Backend
    requires r in b.realms
  {
    var realm := b.realms[r];
    WithReencryption(
      WithRealm(b, r, realm.(status := MaintenanceStatus(author, timestamp, realm.status.encryptionRevision + 1))), r,
        Some(s))
  }

  /** Every vlob of the organization with an entry in `news` is replaced by it. */
  ghost function Replaced(vlobs: AllVlobs, org: OrganizationId, news: Vlobs): (m: AllVlobs)
    ensures forall v :: v in m <==> v in vlobs || (v.org == org && v.vlob in news)
    ensures forall v :: v in m ==> m[v] == if v.org == org && v.vlob in news then news[v.vlob] else vlobs[v]
  {
    vlobs + map id | id in news :: OrgVlob(org, id) := news[id]
  }

  /** The realm leaves maintenance, its encryption revision unchanged, with these vlobs in place. */
  function FinishedWith(b: Backend, r: OrgRealm, vlobs: AllVlobs): Backend
    requires r in b.realms
  {
    var realm := b.realms[r];
    var status := NOT_IN_MAINTENANCE.(encryptionRevision := realm.status.encryptionRevision);
    WithReencryption(WithRealm(b.(vlobs := vlobs), r, realm.(status := status)), r, None)
  }

  ghost function Finished(b: Backend, r: OrgRealm): Backend
    requires Finishable(b, r)
  {
    FinishedWith(b, r, Replaced(b.vlobs, r.org, Reencrypted(ChangesOf(b.changes, r).reencryption.value)))
  }

  ghost predicate Finishable(b: Backend, r: OrgRealm) {
    && r in b.realms
    && ChangesOf(b.changes, r).reencryption.Some?
    && IsFinished(ChangesOf(b.changes, r).reencryption.value)
    && Partition(ChangesOf(b.changes, r).reencryption.value)
  }

  // ---------- which error an operation answers ----------

  function CreateVlobError(
    b: Backend, org: OrganizationId, author: DeviceId, realm: RealmId, revision: int, id: VlobId): Option<VlobError>
  {
    var access := AccessError(b.realms, OrgRealm(org, realm), author.userId, Some(revision), CAN_WRITE, false);
    if access.Some? then access
    else if OrgVlob(org, id) in b.vlobs then Some(VlobAlreadyExists)
    else None
  }

  function UpdateVlobError(
    b: Backend, org: OrganizationId, author: DeviceId, revision: int, id: VlobId, version: int,
    timestamp: Timestamp): Option<VlobError>
  {
    if OrgVlob(org, id) !in b.vlobs then Some(VlobNotFound)
    else
      var vlob := b.vlobs[OrgVlob(org, id)];
      var access := AccessError(b.realms, OrgRealm(org, vlob.realmId), author.userId, Some(revision), CAN_WRITE, false);
      if access.Some? then access
      else if version - 1 != |vlob.data| then Some(VlobVersion)
      else if vlob.data != [] && timestamp < vlob.data[|vlob.data| - 1].timestamp then Some(VlobTimestamp)
      else None
  }

  function UpdateRolesError(b: Backend, users: Users, org: OrganizationId, x: GrantedRole): Option<RealmError> {
    var r := OrgRealm(org, x.realmId);
    if OrgUser(org, x.userId) !in users then Some(RealmNotFound)
    else if users[OrgUser(org, x.userId)].profile == Outsider &&
      x.role in {Some(Manager), Some(Owner)} then Some(RealmIncompatibleProfile)
    else if r !in b.realms then Some(RealmNotFound)
    else if b.realms[r].status.InMaintenance() then Some(RealmInMaintenance)
    else if !MayGrant(b.realms[r].grantedRoles, x) then Some(RealmAccess)
    else if RoleIn(RolesOf(b.realms[r]), x.userId) == x.role then Some(RealmRoleAlreadyGranted)
    else None
  }

  predicate Active(users: Users, org: OrganizationId, user: UserId, now: Timestamp) {
    && OrgUser(org, user) in users
    && (users[OrgUser(org, user)].revokedOn.None? || users[OrgUser(org, user)].revokedOn.value > now)
  }

  function StartError(
    b: Backend, users: Users, now: Timestamp, r: OrgRealm, author: DeviceId, revision: int,
    recipients: set<UserId>): Option<RealmError>
  {
    if r !in b.realms then Some(RealmNotFound)
    else
      var realm := b.realms[r];
      if RoleIn(RolesOf(realm), author.userId) != Some(Owner) then Some(RealmAccess)
      else if realm.status.InMaintenance() then Some(RealmInMaintenance)
      else if revision != realm.status.encryptionRevision + 1 then Some(RealmEncryptionRevision)
      else if exists user :: user in RolesOf(realm) && OrgUser(r.org, user) !in users then Some(UserNotFound)
      else if recipients != (set user | user in RolesOf(realm) && Active(users, r.org, user, now)) then
        Some(RealmParticipantsMismatch)
      else None
  }

  function FinishError(b: Backend, r: OrgRealm, author: DeviceId, revision: int): Option<RealmError> {
    if r !in b.realms then Some(RealmNotFound)
    else
      var realm := b.realms[r];
      if RoleIn(RolesOf(realm), author.userId) != Some(Owner) then Some(RealmAccess)
      else if !realm.status.InMaintenance() then Some(RealmNotInMaintenance)
      else if revision != realm.status.encryptionRevision then Some(RealmEncryptionRevision)
      else
        var reencryption := ChangesOf(b.changes, r).reencryption;
        if reencryption.Some? && !IsFinished(reencryption.value) then Some(RealmMaintenance)
        else None
  }

  // ---------- the invariant ----------

  /** Versions are dated in order. */
  ghost predicate Dated(data: seq<Atom>) {
    forall i, j :: 0 <= i < j < |data| ==> data[i].timestamp <= data[j].timestamp
  }

  ghost predicate VlobsFit(b: Backend) {
    forall v :: v in b.vlobs ==>
      b.vlobs[v].data != [] && Dated(b.vlobs[v].data) && OrgRealm(v.org, b.vlobs[v].realmId) in b.realms
  }

  predicate InMaintenance(b: Backend, r: OrgRealm) {
    r in b.realms && b.realms[r].status.InMaintenance()
  }

  /** A realm is in maintenance exactly when it has a reencryption, which was built from the vlobs it has now. */
  ghost predicate Reencrypting(maintenance: bool, reencryption: Option<State>, realm: RealmId, vlobs: Vlobs) {
    && (reencryption.Some? <==> maintenance)
    && (reencryption.Some? ==>
          && Partition(reencryption.value)
          && reencryption.value.realmId == realm
          && reencryption.value.original == vlobs)
  }

  ghost predicate MaintenanceFits(b: Backend, r: OrgRealm) {
    Reencrypting(InMaintenance(b, r), ChangesOf(b.changes, r).reencryption, r.realm, RealmVlobs(b.vlobs, r))
  }

  /** The checkpoint and the change index are those of the full log, which leads to the current versions. */
  ghost predicate Indexes(checkpoint: nat, changes: Index, log: seq<Row>, vlobs: Vlobs) {
    checkpoint == |log| && changes == IndexOf(log) && FoldRows(log) == CurrentVersions(vlobs)
  }

  ghost predicate LogFits(b: Backend, r: OrgRealm) {
    Indexes(ChangesOf(b.changes, r).checkpoint, ChangesOf(b.changes, r).changes, LogOf(b.log, r),
      RealmVlobs(b.vlobs, r))
  }

  ghost predicate RealmFits(b: Backend, r: OrgRealm) {
    && MaintenanceFits(b, r)
    && LogFits(b, r)
    && (r in b.realms ==> HasOwner(b.realms[r].grantedRoles))
  }

  ghost predicate Consistent(b: Backend) {
    VlobsFit(b) && forall r :: RealmFits(b, r)
  }

  // ---------- every operation keeps it ----------

  lemma NothingIsConsistent()
    ensures Consistent(NO_BACKEND)
  {
    forall r ensures RealmFits(NO_BACKEND, r) {
      assert RealmVlobs(NO_BACKEND.vlobs, r) == map[];
    }
  }

  lemma SameRealmVlobs(a: AllVlobs, b: AllVlobs, r: OrgRealm)
    requires forall id :: InRealm(a, r, id) <==> InRealm(b, r, id)
    requires forall id :: InRealm(a, r, id) && InRealm(b, r, id) ==> a[OrgVlob(r.org, id)] == b[OrgVlob(r.org, id)]
    ensures RealmVlobs(a, r) == RealmVlobs(b, r)
  {
  }

  /** What a realm needs is kept by an operation that leaves the realm's own records and vlobs alone. */
  lemma OtherRealmFits(b: Backend, n: Backend, q: OrgRealm)
    requires RealmFits(b, q)
    requires q in n.realms <==> q in b.realms
    requires q in b.realms && q in n.realms ==> n.realms[q] == b.realms[q]
    requires ChangesOf(n.changes, q) == ChangesOf(b.changes, q) && LogOf(n.log, q) == LogOf(b.log, q)
    requires RealmVlobs(n.vlobs, q) == RealmVlobs(b.vlobs, q)
    ensures RealmFits(n, q)
  {
  }

  lemma CreateRealmKeeps(b: Backend, r: OrgRealm, x: GrantedRole)
    requires Consistent(b) && r !in b.realms && x.role == Some(Owner)
    ensures Consistent(WithRealm(b, r, Realm(NOT_IN_MAINTENANCE, [x])))
  {
    var n := WithRealm(b, r, Realm(NOT_IN_MAINTENANCE, [x]));
    forall q ensures RealmFits(n, q) {
      assert RealmFits(b, q);
      if q == r {
        NewRealmFits(b, r, x);
      } else {
        OtherRealmFits(b, n, q);
      }
    }
  }

  lemma NewRealmFits(b: Backend, r: OrgRealm, x: GrantedRole)
    requires RealmFits(b, r) && r !in b.realms && x.role == Some(Owner)
    ensures RealmFits(WithRealm(b, r, Realm(NOT_IN_MAINTENANCE, [x])), r)
  {
    FirstGrantHasOwner(x);
    assert MaintenanceFits(b, r) && LogFits(b, r);
  }

  lemma UpdateRolesKeeps(b: Backend, users: Users, org: OrganizationId, x: GrantedRole)
    requires Consistent(b) && x.grantedBy.userId != x.userId && UpdateRolesError(b, users, org, x).None?
    ensures var r := OrgRealm(org, x.realmId);
      Consistent(WithRealm(b, r, b.realms[r].(grantedRoles := b.realms[r].grantedRoles + [x])))
  {
    var r := OrgRealm(org, x.realmId);
    var n := WithRealm(b, r, b.realms[r].(grantedRoles := b.realms[r].grantedRoles + [x]));
    assert RealmFits(b, r);
    UpdateKeepsOwner(b.realms[r].grantedRoles, x);
    forall q ensures RealmFits(n, q) {
      assert RealmFits(b, q);
      if q != r {
        OtherRealmFits(b, n, q);
      }
    }
  }

  lemma TouchKeeps(b: Backend, r: OrgRealm)
    requires Consistent(b)
    ensures Consistent(Touched(b, r))
  {
    forall q ensures RealmFits(Touched(b, r), q) {
      assert RealmFits(b, q);
      OtherRealmFits(b, Touched(b, r), q);
    }
  }

  lemma IndexAfterWrite(
    checkpoint: nat, changes: Index, log: seq<Row>, vlobs: Vlobs, id: VlobId, vlob: Vlob, author: DeviceId)
    requires Indexes(checkpoint, changes, log, vlobs)
    ensures Indexes(
      checkpoint + 1, changes[id := Change(author, checkpoint + 1, |vlob.data|)],
      log + [Row(id, |vlob.data|, author)], vlobs[id := vlob])
  {
    assert (log + [Row(id, |vlob.data|, author)])[..|log|] == log;
    assert CurrentVersions(vlobs[id := vlob]) == CurrentVersions(vlobs)[id := |vlob.data|];
  }

  ghost predicate Writable(b: Backend, r: OrgRealm, id: VlobId, vlob: Vlob) {
    && r in b.realms && !b.realms[r].status.InMaintenance()
    && vlob.realmId == r.realm && vlob.data != [] && Dated(vlob.data)
    && (OrgVlob(r.org, id) in b.vlobs ==> InRealm(b.vlobs, r, id))
  }

  lemma VlobsAfterWrite(b: Backend, r: OrgRealm, id: VlobId, vlob: Vlob, q: OrgRealm)
    requires Writable(b, r, id, vlob)
    ensures RealmVlobs(b.vlobs[OrgVlob(r.org, id) := vlob], q) ==
      if q == r then RealmVlobs(b.vlobs, q)[id := vlob] else RealmVlobs(b.vlobs, q)
  {
    var vlobs := b.vlobs[OrgVlob(r.org, id) := vlob];
    if q == r {
      assert RealmVlobs(vlobs, r) == RealmVlobs(b.vlobs, r)[id := vlob];
    } else {
      SameRealmVlobs(vlobs, b.vlobs, q);
    }
  }

  function Written(b: Backend, r: OrgRealm, id: VlobId, vlob: Vlob, author: DeviceId): Backend {
    WithChange(WithVlob(b, OrgVlob(r.org, id), vlob), author, r, id, |vlob.data|)
  }

  lemma WriteKeepsItsRealm(b: Backend, r: OrgRealm, id: VlobId, vlob: Vlob, author: DeviceId)
    requires RealmFits(b, r) && Writable(b, r, id, vlob)
    ensures RealmFits(Written(b, r, id, vlob, author), r)
  {
    VlobsAfterWrite(b, r, id, vlob, r);
    var c := ChangesOf(b.changes, r);
    assert LogFits(b, r);
    IndexAfterWrite(c.checkpoint, c.changes, LogOf(b.log, r), RealmVlobs(b.vlobs, r), id, vlob, author);
    var n := Written(b, r, id, vlob, author);
    assert LogFits(n, r);
    assert MaintenanceFits(b, r);
    assert MaintenanceFits(n, r);
  }

  /** Writing one version of a vlob of a realm that is not in maintenance. */
  lemma WriteKeeps(b: Backend, r: OrgRealm, id: VlobId, vlob: Vlob, author: DeviceId)
    requires Consistent(b) && Writable(b, r, id, vlob)
    ensures Consistent(Written(b, r, id, vlob, author))
  {
    WriteKeepsVlobs(b, r, id, vlob, author);
    forall q ensures RealmFits(Written(b, r, id, vlob, author), q) {
      assert RealmFits(b, q);
      if q == r {
        WriteKeepsItsRealm(b, r, id, vlob, author);
      } else {
        WriteKeepsOtherRealm(b, r, id, vlob, author, q);
      }
    }
  }

  lemma WriteKeepsVlobs(b: Backend, r: OrgRealm, id: VlobId, vlob: Vlob, author: DeviceId)
    requires VlobsFit(b) && Writable(b, r, id, vlob)
    ensures VlobsFit(Written(b, r, id, vlob, author))
  {
  }

  lemma WriteKeepsOtherRealm(b: Backend, r: OrgRealm, id: VlobId, vlob: Vlob, author: DeviceId, q: OrgRealm)
    requires RealmFits(b, q) && Writable(b, r, id, vlob) && q != r
    ensures RealmFits(Written(b, r, id, vlob, author), q)
  {
    VlobsAfterWrite(b, r, id, vlob, q);
    OtherRealmFits(b, Written(b, r, id, vlob, author), q);
  }

  lemma CreateVlobKeeps(
    b: Backend, org: OrganizationId, author: DeviceId, realm: RealmId, revision: int, id: VlobId, atom: Atom)
    requires Consistent(b) && CreateVlobError(b, org, author, realm, revision, id).None?
    ensures Consistent(Created(b, org, author, realm, id, atom))
  {
    assert Writable(b, OrgRealm(org, realm), id, Vlob(realm, [atom]));
    WriteKeeps(b, OrgRealm(org, realm), id, Vlob(realm, [atom]), author);
  }

  lemma DatedAppend(data: seq<Atom>, atom: Atom)
    requires Dated(data) && (data != [] ==> data[|data| - 1].timestamp <= atom.timestamp)
    ensures Dated(data + [atom])
  {
  }

  lemma UpdateVlobKeeps(
    b: Backend, org: OrganizationId, author: DeviceId, revision: int, id: VlobId, version: int, atom: Atom)
    requires Consistent(b) && UpdateVlobError(b, org, author, revision, id, version, atom.timestamp).None?
    ensures Consistent(Updated(b, org, author, id, atom))
  {
    var vlob := b.vlobs[OrgVlob(org, id)];
    var newVlob := vlob.(data := vlob.data + [atom]);
    DatedAppend(vlob.data, atom);
    assert Writable(b, OrgRealm(org, vlob.realmId), id, newVlob);
    WriteKeeps(b, OrgRealm(org, vlob.realmId), id, newVlob, author);
  }

  lemma StartKeepsItsRealm(b: Backend, r: OrgRealm, author: DeviceId, timestamp: Timestamp, s: State)
    requires RealmFits(b, r) && r in b.realms && IsStart(s, r.realm, RealmVlobs(b.vlobs, r))
    ensures RealmFits(Started(b, r, author, timestamp, s), r)
  {
    var n := Started(b, r, author, timestamp, s);
    assert Reencrypting(true, Some(s), r.realm, RealmVlobs(b.vlobs, r));
    assert MaintenanceFits(n, r);
    assert LogFits(b, r);
    assert LogFits(n, r);
  }

  lemma StartKeeps(b: Backend, r: OrgRealm, author: DeviceId, timestamp: Timestamp, s: State)
    requires Consistent(b) && r in b.realms && IsStart(s, r.realm, RealmVlobs(b.vlobs, r))
    ensures Consistent(Started(b, r, author, timestamp, s))
  {
    var n := Started(b, r, author, timestamp, s);
    forall q ensures RealmFits(n, q) {
      assert RealmFits(b, q);
      if q == r {
        StartKeepsItsRealm(b, r, author, timestamp, s);
      } else {
        OtherRealmFits(b, n, q);
      }
    }
    assert VlobsFit(n);
  }

  lemma SavingKeepsReencrypting(s: State, batch: seq<Entry>, realm: RealmId, vlobs: Vlobs)
    requires Reencrypting(true, Some(s), realm, vlobs)
    ensures Reencrypting(true, Some(SaveBatch(s, batch).0), realm, vlobs)
  {
    SaveKeepsPartition(s, batch);
  }

  lemma SaveBatchKeeps(b: Backend, r: OrgRealm, batch: seq<Entry>)
    requires Consistent(b) && ChangesOf(b.changes, r).reencryption.Some?
    ensures Consistent(WithReencryption(b, r, Some(SaveBatch(ChangesOf(b.changes, r).reencryption.value, batch).0)))
  {
    var s := ChangesOf(b.changes, r).reencryption.value;
    assert RealmFits(b, r);
    SavingKeepsReencrypting(s, batch, r.realm, RealmVlobs(b.vlobs, r));
    SwapReencryptionKeeps(b, r, SaveBatch(s, batch).0);
  }

  lemma SwapReencryptionKeeps(b: Backend, r: OrgRealm, s: State)
    requires Consistent(b) && Reencrypting(InMaintenance(b, r), Some(s), r.realm, RealmVlobs(b.vlobs, r))
    ensures Consistent(WithReencryption(b, r, Some(s)))
  {
    var n := WithReencryption(b, r, Some(s));
    forall q ensures RealmFits(n, q) {
      assert RealmFits(b, q);
      if q != r {
        OtherRealmFits(b, n, q);
      }
    }
  }

  /** The reencrypted vlob keeps everything but its blobs. */
  ghost predicate SameButBlobs(a: Vlob, b: Vlob) {
    && a.realmId == b.realmId && |a.data| == |b.data|
    && forall i :: 0 <= i < |a.data| ==>
      a.data[i].author == b.data[i].author && a.data[i].timestamp == b.data[i].timestamp
  }

  lemma ReencryptedKeeps(s: State, realm: RealmId, vlobs: Vlobs)
    requires Reencrypting(true, Some(s), realm, vlobs) && IsFinished(s)
    requires forall id :: id in vlobs ==> vlobs[id].realmId == realm
    ensures Reencrypted(s).Keys == vlobs.Keys
    ensures forall id :: id in vlobs ==> SameButBlobs(Reencrypted(s)[id], vlobs[id])
    ensures CurrentVersions(Reencrypted(s)) == CurrentVersions(vlobs)
  {
  }

  /** The realm's vlobs are among those stored, so replacing them adds none. */
  lemma ReplacedAreStored(vlobs: AllVlobs, r: OrgRealm, news: Vlobs)
    requires news.Keys == RealmVlobs(vlobs, r).Keys
    ensures forall v: OrgVlob :: v.org == r.org && v.vlob in news ==>
      v in vlobs && vlobs[v].realmId == r.realm && vlobs[v] == RealmVlobs(vlobs, r)[v.vlob]
  {
    forall v: OrgVlob | v.org == r.org && v.vlob in news
      ensures v in vlobs && vlobs[v].realmId == r.realm && vlobs[v] == RealmVlobs(vlobs, r)[v.vlob]
    {
      assert InRealm(vlobs, r, v.vlob);
      assert v == OrgVlob(r.org, v.vlob);
    }
  }

  ghost predicate ReplacedWithin(vlobs: AllVlobs, r: OrgRealm, after: AllVlobs) {
    && after.Keys == vlobs.Keys
    && (forall v :: v in vlobs ==> SameButBlobs(after[v], vlobs[v]))
    && (forall v :: v in vlobs && OrgRealm(v.org, vlobs[v].realmId) != r ==> after[v] == vlobs[v])
  }

  lemma ReplacingKeeps(vlobs: AllVlobs, r: OrgRealm, news: Vlobs)
    requires news.Keys == RealmVlobs(vlobs, r).Keys
    requires forall id :: id in news ==> SameButBlobs(news[id], RealmVlobs(vlobs, r)[id])
    ensures ReplacedWithin(vlobs, r, Replaced(vlobs, r.org, news))
  {
    ReplacedAreStored(vlobs, r, news);
    var after := Replaced(vlobs, r.org, news);
    assert after.Keys == vlobs.Keys;
    forall v | v in vlobs
      ensures SameButBlobs(after[v], vlobs[v]) && (OrgRealm(v.org, vlobs[v].realmId) != r ==> after[v] == vlobs[v])
    {
      if v.org == r.org && v.vlob in news {
        assert after[v] == news[v.vlob];
      }
    }
  }

  /** The end of a reencryption changes the blobs of the realm's vlobs and no other vlob. */
  lemma FinishReplaces(b: Backend, r: OrgRealm)
    requires RealmFits(b, r) && Finishable(b, r)
    ensures ReplacedWithin(b.vlobs, r,
      Replaced(b.vlobs, r.org, Reencrypted(ChangesOf(b.changes, r).reencryption.value)))
  {
    var s := ChangesOf(b.changes, r).reencryption.value;
    var before := RealmVlobs(b.vlobs, r);
    assert Reencrypting(true, Some(s), r.realm, before);
    ReencryptedKeeps(s, r.realm, before);
    ReplacingKeeps(b.vlobs, r, Reencrypted(s));
  }

  lemma VlobsAfterFinish(vlobs: AllVlobs, r: OrgRealm, after: AllVlobs, q: OrgRealm)
    requires ReplacedWithin(vlobs, r, after)
    ensures CurrentVersions(RealmVlobs(after, q)) == CurrentVersions(RealmVlobs(vlobs, q))
    ensures q != r ==> RealmVlobs(after, q) == RealmVlobs(vlobs, q)
  {
    assert forall id :: InRealm(after, q, id) <==> InRealm(vlobs, q, id);
    assert RealmVlobs(after, q).Keys == RealmVlobs(vlobs, q).Keys;
    if q != r {
      SameRealmVlobs(after, vlobs, q);
    }
  }

  lemma FinishKeepsItsRealm(b: Backend, r: OrgRealm, after: AllVlobs)
    requires RealmFits(b, r) && r in b.realms && ReplacedWithin(b.vlobs, r, after)
    ensures RealmFits(FinishedWith(b, r, after), r)
  {
    var n := FinishedWith(b, r, after);
    VlobsAfterFinish(b.vlobs, r, after, r);
    assert LogFits(b, r);
    assert LogFits(n, r);
    assert MaintenanceFits(n, r);
  }

  lemma FinishKeepsOtherRealm(b: Backend, r: OrgRealm, after: AllVlobs, q: OrgRealm)
    requires RealmFits(b, q) && r in b.realms && q != r && ReplacedWithin(b.vlobs, r, after)
    ensures RealmFits(FinishedWith(b, r, after), q)
  {
    VlobsAfterFinish(b.vlobs, r, after, q);
    OtherRealmFits(b, FinishedWith(b, r, after), q);
  }

  lemma SameButBlobsIsDated(a: Vlob, b: Vlob)
    requires SameButBlobs(a, b) && Dated(b.data)
    ensures Dated(a.data)
  {
  }

  lemma FinishKeepsVlobs(b: Backend, r: OrgRealm, after: AllVlobs)
    requires VlobsFit(b) && r in b.realms && ReplacedWithin(b.vlobs, r, after)
    ensures VlobsFit(FinishedWith(b, r, after))
  {
    forall v | v in after
      ensures after[v].data != [] && Dated(after[v].data) && OrgRealm(v.org, after[v].realmId) in b.realms
    {
      SameButBlobsIsDated(after[v], b.vlobs[v]);
    }
  }

  lemma FinishWithKeeps(b: Backend, r: OrgRealm, after: AllVlobs)
    requires Consistent(b) && r in b.realms && ReplacedWithin(b.vlobs, r, after)
    ensures Consistent(FinishedWith(b, r, after))
  {
    FinishKeepsVlobs(b, r, after);
    forall q ensures RealmFits(FinishedWith(b, r, after), q) {
      assert RealmFits(b, q);
      if q == r {
        FinishKeepsItsRealm(b, r, after);
      } else {
        FinishKeepsOtherRealm(b, r, after, q);
      }
    }
  }

  lemma FinishKeeps(b: Backend, r: OrgRealm)
    requires Consistent(b) && Finishable(b, r)
    ensures Consistent(Finished(b, r))
  {
    assert RealmFits(b, r);
    FinishReplaces(b, r);
    FinishWithKeeps(b, r, Replaced(b.vlobs, r.org, Reencrypted(ChangesOf(b.changes, r).reencryption.value)));
  }
}
