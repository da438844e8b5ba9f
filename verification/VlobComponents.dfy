/** The in-memory realm and vlob components, updated in place. */
module VlobComponents {
  import opened Common
  import opened Certificates
  import opened RealmRoles
  import opened ReencryptionModel
  import opened ChangeIndex
  import opened VlobBackend

  // ---------- the state after an operation, whether it is accepted or not ----------

  function AfterCreateRealm(b: Backend, org: OrganizationId, x: GrantedRole): Backend {
    var r := OrgRealm(org, x.realmId);
    if r in b.realms then b else WithRealm(b, r, Realm(NOT_IN_MAINTENANCE, [x]))
  }

  function AfterUpdateRoles(b: Backend, users: Users, org: OrganizationId, x: GrantedRole): Backend {
    if UpdateRolesError(b, users, org, x).Some? then b
    else
      var r := OrgRealm(org, x.realmId);
      WithRealm(b, r, b.realms[r].(grantedRoles := b.realms[r].grantedRoles + [x]))
  }

  /** The order in which a new reencryption lists what is to do is left open. */
  ghost predicate IsAfterStart(
    b: Backend, users: Users, now: Timestamp, r: OrgRealm, author: DeviceId, revision: int, recipients: set<UserId>,
    timestamp: Timestamp, n: Backend)
  {
    if StartError(b, users, now, r, author, revision, recipients).Some? then n == b
    else exists s :: IsStart(s, r.realm, RealmVlobs(b.vlobs, r)) && n == Started(b, r, author, timestamp, s)
  }

  ghost function AfterFinish(b: Backend, r: OrgRealm, author: DeviceId, revision: int): Backend {
    if FinishError(b, r, author, revision).None? && Finishable(b, r) then Finished(b, r) else b
  }

  function AfterCreateVlob(
    b: Backend, org: OrganizationId, author: DeviceId, realm: RealmId, revision: int, id: VlobId, timestamp: Timestamp,
    blob: Bytes): Backend
  {
    if CreateVlobError(b, org, author, realm, revision, id).Some? then b
    else Created(b, org, author, realm, id, Atom(blob, author, timestamp))
  }

  function AfterUpdateVlob(
    b: Backend, org: OrganizationId, author: DeviceId, revision: int, id: VlobId, version: int, timestamp: Timestamp,
    blob: Bytes): Backend
  {
    if UpdateVlobError(b, org, author, revision, id, version, timestamp).Some? then b
    else Updated(b, org, author, id, Atom(blob, author, timestamp))
  }

  function AfterPoll(b: Backend, r: OrgRealm, author: DeviceId): Backend {
    if AccessError(b.realms, r, author.userId, None, CAN_READ, false).Some? then b else Touched(b, r)
  }

  function AfterSaveBatch(b: Backend, r: OrgRealm, author: DeviceId, revision: int, batch: seq<Entry>): Backend {
    var reencryption := ChangesOf(b.changes, r).reencryption;
    if AccessError(b.realms, r, author.userId, Some(revision), CAN_MAINTAIN, true).Some? || reencryption.None? then b
    else WithReencryption(b, r, Some(SaveBatch(reencryption.value, batch).0))
  }

  /** A reencryption is there to be finished whenever finishing is not refused, and the backend stays consistent. */
  lemma AfterFinishKeeps(b: Backend, r: OrgRealm, author: DeviceId, revision: int)
    requires Consistent(b)
    ensures FinishError(b, r, author, revision).None? ==> Finishable(b, r)
    ensures Consistent(AfterFinish(b, r, author, revision))
  {
    if FinishError(b, r, author, revision).None? {
      assert RealmFits(b, r);
      FinishKeeps(b, r);
    }
  }

  // ---------- reading at a moment in time ----------

  /** The first `v` versions are those dated at or before `t`. */
  ghost predicate IsCut(data: seq<Atom>, t: Timestamp, v: int) {
    && 0 <= v <= |data|
    && (forall i :: 0 <= i < v ==> data[i].timestamp <= t)
    && (forall i :: v <= i < |data| ==> data[i].timestamp > t)
  }

  /** Python's indexing, which counts from the end for a negative index. */
  function Item<T>(s: seq<T>, i: int): Option<T> {
    if 0 <= i < |s| then Some(s[i])
    else if -|s| <= i < 0 then Some(s[|s| + i])
    else None
  }

  /**
   The loop of a time-travel read finds the last version that is early enough, which is the cut when versions are
   dated in order.
   */
  method FindVersion(data: seq<Atom>, t: Timestamp) returns (version: nat)
    ensures version <= |data| && (version > 0 ==> data[version - 1].timestamp <= t)
    ensures forall i :: version <= i < |data| ==> data[i].timestamp > t
    ensures Dated(data) ==> IsCut(data, t, version)
  {
    version := |data|;
    while version > 0 && data[version - 1].timestamp > t
      invariant version <= |data|
      invariant forall i :: version <= i < |data| ==> data[i].timestamp > t
    {
      version := version - 1;
    }
  }

  /** The role certificates sorted by date, the order of arrival kept among equal dates. */
  method ComputeRolesByDate(granted: seq<GrantedRole>) returns (roles: Roles)
    ensures roles == RolesByDate(granted)
  {
    var sorted: seq<GrantedRole> := [];
    for i := 0 to |granted|
      invariant sorted == SortByDate(granted[..i])
    {
      assert granted[..i + 1][..i] == granted[..i];
      sorted := InsertByDate(sorted, granted[i]);
    }
    assert granted[..|granted|] == granted;
    roles := ComputeRoles(sorted);
  }

  ghost predicate AllHaveData(vlobs: Vlobs) {
    forall id :: id in vlobs ==> |vlobs[id].data| > 0
  }

  lemma ReencryptionHasData(b: Backend, r: OrgRealm)
    requires Consistent(b) && InMaintenance(b, r)
    ensures ChangesOf(b.changes, r).reencryption.Some?
    ensures Partition(ChangesOf(b.changes, r).reencryption.value)
    ensures AllHaveData(ChangesOf(b.changes, r).reencryption.value.original)
  {
    assert RealmFits(b, r);
    var original := ChangesOf(b.changes, r).reencryption.value.original;
    forall id | id in original ensures |original[id].data| > 0 {
      assert InRealm(b.vlobs, r, id);
    }
  }

  method InstallVlobs(vlobs: AllVlobs, org: OrganizationId, news: Vlobs) returns (after: AllVlobs)
    ensures after == Replaced(vlobs, org, news)
  {
    after := vlobs;
    var rest := news.Keys;
    while rest != {}
      invariant rest <= news.Keys
      invariant Installing(vlobs, org, news, rest, after)
      decreases |rest|
    {
      var id :| id in rest;
      InstallOneMore(vlobs, org, news, rest, after, id);
      after := after[OrgVlob(org, id) := news[id]];
      rest := rest - {id};
    }
    InstalledAll(vlobs, org, news, after);
  }

  ghost predicate Installing(vlobs: AllVlobs, org: OrganizationId, news: Vlobs, rest: set<VlobId>, after: AllVlobs) {
    && (forall v :: v in after <==> v in vlobs || (v.org == org && v.vlob in news && v.vlob !in rest))
    && (forall v :: v in after ==>
          after[v] == if v.org == org && v.vlob in news && v.vlob !in rest then news[v.vlob] else vlobs[v])
  }

  lemma InstallOneMore(
    vlobs: AllVlobs, org: OrganizationId, news: Vlobs, rest: set<VlobId>, after: AllVlobs, id: VlobId)
    requires id in rest && id in news && Installing(vlobs, org, news, rest, after)
    ensures Installing(vlobs, org, news, rest - {id}, after[OrgVlob(org, id) := news[id]])
  {
  }

  lemma InstalledAll(vlobs: AllVlobs, org: OrganizationId, news: Vlobs, after: AllVlobs)
    requires Installing(vlobs, org, news, {}, after)
    ensures after == Replaced(vlobs, org, news)
  {
    assert after.Keys == Replaced(vlobs, org, news).Keys;
  }

  class MemoryRealmComponent {
    var realms: Realms

    constructor ()
      ensures realms == map[]
    {
      realms := map[];
    }

    method GetCurrentRoles(org: OrganizationId, realmId: RealmId) returns (r: Result<Roles, RealmError>)
      ensures r == if OrgRealm(org, realmId) in realms
                   then Ok(RolesByArrival(realms[OrgRealm(org, realmId)].grantedRoles))
                   else Err(RealmNotFound)
    {
      if OrgRealm(org, realmId) !in realms {
        return Err(RealmNotFound);
      }
      var roles := ComputeRoles(realms[OrgRealm(org, realmId)].grantedRoles);
      return Ok(roles);
    }

    method Create(vlobComponent: MemoryVlobComponent, org: OrganizationId, selfGrantedRole: GrantedRole)
      returns (err: Option<RealmError>)
      requires vlobComponent.realmComponent == this && vlobComponent.Valid()
      requires selfGrantedRole.grantedBy.userId == selfGrantedRole.userId && selfGrantedRole.role == Some(Owner)
      modifies this`realms
      ensures vlobComponent.Valid()
      ensures err == if OrgRealm(org, selfGrantedRole.realmId) in old(realms) then Some(RealmAlreadyExists) else None
      ensures vlobComponent.Snapshot() == AfterCreateRealm(old(vlobComponent.Snapshot()), org, selfGrantedRole)
    {
      var key := OrgRealm(org, selfGrantedRole.realmId);
      if key in realms {
        return Some(RealmAlreadyExists);
      }
      CreateRealmKeeps(vlobComponent.Snapshot(), key, selfGrantedRole);
      realms := realms[key := Realm(NOT_IN_MAINTENANCE, [selfGrantedRole])];
      return None;
    }

    method UpdateRoles(vlobComponent: MemoryVlobComponent, users: Users, org: OrganizationId, newRole: GrantedRole)
      returns (err: Option<RealmError>)
      requires vlobComponent.realmComponent == this && vlobComponent.Valid() &&
        newRole.grantedBy.userId != newRole.userId
      modifies this`realms
      ensures vlobComponent.Valid()
      ensures err == UpdateRolesError(old(vlobComponent.Snapshot()), users, org, newRole)
      ensures vlobComponent.Snapshot() == AfterUpdateRoles(old(vlobComponent.Snapshot()), users, org, newRole)
    {
      if OrgUser(org, newRole.userId) !in users {
        return Some(RealmNotFound);
      }
      var user := users[OrgUser(org, newRole.userId)];
      if user.profile == Outsider && newRole.role in {Some(Manager), Some(Owner)} {
        return Some(RealmIncompatibleProfile);
      }
      var key := OrgRealm(org, newRole.realmId);
      if key !in realms {
        return Some(RealmNotFound);
      }
      var realm := realms[key];
      if realm.status.InMaintenance() {
        return Some(RealmInMaintenance);
      }
      var roles := ComputeRolesByDate(realm.grantedRoles);
      var existing := RoleIn(roles, newRole.userId);
      var needed := if OwnerOrManager(existing) ||
        OwnerOrManager(newRole.role) then {Some(Owner)} else {Some(Owner), Some(Manager)};
      if RoleIn(roles, newRole.grantedBy.userId) !in needed {
        return Some(RealmAccess);
      }
      if existing == newRole.role {
        return Some(RealmRoleAlreadyGranted);
      }
      UpdateRolesKeeps(vlobComponent.Snapshot(), users, org, newRole);
      realms := realms[key := realm.(grantedRoles := realm.grantedRoles + [newRole])];
      return None;
    }

    method ParticipantsMismatch(users: Users, now: Timestamp, r: OrgRealm, roles: Roles, recipients: set<UserId>)
      returns (err: Option<RealmError>)
      ensures err ==
        if exists user :: user in roles && OrgUser(r.org, user) !in users then Some(UserNotFound)
        else if recipients != (set user | user in roles && Active(users, r.org, user, now)) then
          Some(RealmParticipantsMismatch)
        else None
    {
      var notRevoked: set<UserId> := {};
      var rest := roles.Keys;
      while rest != {}
        invariant rest <= roles.Keys
        invariant forall user :: user in roles && user !in rest ==> OrgUser(r.org, user) in users
        invariant forall user :: user in notRevoked <==>
          user in roles && user !in rest && Active(users, r.org, user, now)
        decreases |rest|
      {
        var user :| user in rest;
        if OrgUser(r.org, user) !in users {
          return Some(UserNotFound);
        }
        if Active(users, r.org, user, now) {
          notRevoked := notRevoked + {user};
        }
        rest := rest - {user};
      }
      assert notRevoked == set user | user in roles && Active(users, r.org, user, now);
      return if recipients != notRevoked then Some(RealmParticipantsMismatch) else None;
    }

    method StartReencryptionMaintenance(
      vlobComponent: MemoryVlobComponent, users: Users, now: Timestamp, r: OrgRealm, author: DeviceId, revision: int,
      recipients: set<UserId>, timestamp: Timestamp)
      returns (err: Option<RealmError>)
      requires vlobComponent.realmComponent == this && vlobComponent.Valid()
      modifies this`realms, vlobComponent`perRealmChanges
      ensures vlobComponent.Valid()
      ensures err == StartError(old(vlobComponent.Snapshot()), users, now, r, author, revision, recipients)
      ensures IsAfterStart(old(vlobComponent.Snapshot()), users, now, r, author, revision, recipients, timestamp,
        vlobComponent.Snapshot())
      ensures err.None? ==>
        && r in old(realms)
        && realms == old(realms)[r := old(realms)[r].(status :=
             RealmStatus(Some(ReencryptionMaintenance), Some(timestamp), Some(author), revision))]
      ensures err.Some? ==> realms == old(realms) && vlobComponent.perRealmChanges == old(vlobComponent.perRealmChanges)
    {
      if r !in realms {
        return Some(RealmNotFound);
      }
      var realm := realms[r];
      var roles := ComputeRolesByDate(realm.grantedRoles);
      if RoleIn(roles, author.userId) != Some(Owner) {
        return Some(RealmAccess);
      }
      if realm.status.InMaintenance() {
        return Some(RealmInMaintenance);
      }
      if revision != realm.status.encryptionRevision + 1 {
        return Some(RealmEncryptionRevision);
      }
      err := ParticipantsMismatch(users, now, r, roles, recipients);
      if err.Some? {
        return err;
      }
      assert RealmFits(vlobComponent.Snapshot(), r);
      realms := realms[r := realm.(status := MaintenanceStatus(author, timestamp, revision))];
      vlobComponent.MaintenanceStartHook(r);
      StartKeeps(old(vlobComponent.Snapshot()), r, author, timestamp,
        ChangesOf(vlobComponent.perRealmChanges, r).reencryption.value);
    }

    method FinishReencryptionMaintenance(
      vlobComponent: MemoryVlobComponent, r: OrgRealm, author: DeviceId, revision: int)
      returns (err: Option<RealmError>)
      requires vlobComponent.realmComponent == this && vlobComponent.Valid()
      modifies this`realms, vlobComponent`perRealmChanges, vlobComponent`vlobs
      ensures vlobComponent.Valid()
      ensures err == FinishError(old(vlobComponent.Snapshot()), r, author, revision)
      ensures err.None? ==> old(Finishable(vlobComponent.Snapshot(), r))
      ensures vlobComponent.Snapshot() == AfterFinish(old(vlobComponent.Snapshot()), r, author, revision)
      ensures err.None? ==>
        && r in old(realms)
        && realms == old(realms)[r := old(realms)[r].(status := RealmStatus(None, None, None, revision))]
      ensures err.Some? ==> realms == old(realms) && vlobComponent.vlobs == old(vlobComponent.vlobs)
    {
      ghost var before := vlobComponent.Snapshot();
      AfterFinishKeeps(before, r, author, revision);
      if r !in realms {
        return Some(RealmNotFound);
      }
      var realm := realms[r];
      var roles := ComputeRolesByDate(realm.grantedRoles);
      if RoleIn(roles, author.userId) != Some(Owner) {
        return Some(RealmAccess);
      }
      if !realm.status.InMaintenance() {
        return Some(RealmNotInMaintenance);
      }
      if revision != realm.status.encryptionRevision {
        return Some(RealmEncryptionRevision);
      }
      ReencryptionHasData(before, r);
      var finished := vlobComponent.MaintenanceIsFinishedHook(r);
      if !finished {
        return Some(RealmMaintenance);
      }
      realms := realms[r := realm.(status := RealmStatus(None, None, None, revision))];
      return None;
    }
  }

  class MemoryVlobComponent {
    const realmComponent: MemoryRealmComponent
    var vlobs: AllVlobs
    var perRealmChanges: AllChanges
    ghost var log: Logs

    ghost function Snapshot(): Backend
      reads this, realmComponent
    {
      Backend(realmComponent.realms, vlobs, perRealmChanges, log)
    }

    ghost predicate Valid()
      reads this, realmComponent
    {
      Consistent(Snapshot())
    }

    constructor (realmComponent: MemoryRealmComponent)
      requires realmComponent.realms == map[]
      ensures this.realmComponent == realmComponent && Snapshot() == NO_BACKEND && Valid()
    {
      this.realmComponent, vlobs, perRealmChanges, log := realmComponent, map[], map[], map[];
      NothingIsConsistent();
    }

    // ---------- maintenance ----------

    /** The hook run when maintenance starts; no reencryption of the realm may be running. */
    method MaintenanceStartHook(r: OrgRealm)
      requires ChangesOf(perRealmChanges, r).reencryption.None?
      modifies this`perRealmChanges
      ensures var s := ChangesOf(perRealmChanges, r).reencryption;
        && s.Some? && IsStart(s.value, r.realm, RealmVlobs(vlobs, r))
        && perRealmChanges == old(perRealmChanges)[r := ChangesOf(old(perRealmChanges), r).(reencryption := s)]
    {
      var s := Start(r.realm, RealmVlobs(vlobs, r));
      perRealmChanges := perRealmChanges[r := ChangesOf(perRealmChanges, r).(reencryption := Some(s))];
    }

    /** The hook that ends a reencryption once nothing is left to do; there is one to end whenever it is called. */
    method MaintenanceIsFinishedHook(r: OrgRealm) returns (finished: bool)
      requires ChangesOf(perRealmChanges, r).reencryption.Some?
      requires Partition(ChangesOf(perRealmChanges, r).reencryption.value)
      requires AllHaveData(ChangesOf(perRealmChanges, r).reencryption.value.original)
      modifies this`perRealmChanges, this`vlobs
      ensures finished == IsFinished(ChangesOf(old(perRealmChanges), r).reencryption.value)
      ensures !finished ==> vlobs == old(vlobs) && perRealmChanges == old(perRealmChanges)
      ensures finished ==>
        && vlobs == old(Replaced(vlobs, r.org, Reencrypted(ChangesOf(perRealmChanges, r).reencryption.value)))
        && perRealmChanges == old(perRealmChanges)[r := ChangesOf(old(perRealmChanges), r).(reencryption := None)]
    {
      var s := ChangesOf(perRealmChanges, r).reencryption.value;
      if !IsFinished(s) {
        return false;
      }
      var news := GetReencryptedVlobs(s);
      vlobs := InstallVlobs(vlobs, r.org, news);
      perRealmChanges := perRealmChanges[r := ChangesOf(perRealmChanges, r).(reencryption := None)];
      return true;
    }

    // ---------- vlobs ----------

    method CheckRealmAccess(
      r: OrgRealm, user: UserId, revision: Option<int>, allowed: set<RealmRole>, maintenance: bool)
      returns (err: Option<VlobError>)
      ensures err == AccessError(realmComponent.realms, r, user, revision, allowed, maintenance)
    {
      if r !in realmComponent.realms {
        return Some(VlobNotFound);
      }
      var realm := realmComponent.realms[r];
      var roles := ComputeRolesByDate(realm.grantedRoles);
      if user !in roles || roles[user] !in allowed {
        return Some(VlobAccess);
      }
      if !maintenance {
        if realm.status.InMaintenance() {
          return Some(VlobInMaintenance);
        }
      } else if !realm.status.InMaintenance() {
        return Some(VlobNotInMaintenance);
      }
      if revision.Some? && revision.value != realm.status.encryptionRevision {
        return Some(VlobEncryptionRevision);
      }
      return None;
    }

    method UpdateChanges(author: DeviceId, r: OrgRealm, id: VlobId, version: int)
      modifies this`perRealmChanges, this`log
      ensures Snapshot() == WithChange(old(Snapshot()), author, r, id, version)
    {
      var changes := ChangesOf(perRealmChanges, r);
      var checkpoint := changes.checkpoint + 1;
      perRealmChanges := perRealmChanges[r := changes.(checkpoint := checkpoint,
        changes := changes.changes[id := Change(author, checkpoint, version)])];
      log := log[r := LogOf(log, r) + [Row(id, version, author)]];
    }

    method Create(
      org: OrganizationId, author: DeviceId, realmId: RealmId, revision: int, id: VlobId, timestamp: Timestamp,
      blob: Bytes)
      returns (err: Option<VlobError>)
      requires Valid()
      modifies this`vlobs, this`perRealmChanges, this`log
      ensures Valid()
      ensures err == CreateVlobError(old(Snapshot()), org, author, realmId, revision, id)
      ensures Snapshot() == AfterCreateVlob(old(Snapshot()), org, author, realmId, revision, id, timestamp, blob)
      ensures err.None? ==>
        && OrgVlob(org, id) !in old(vlobs)
        && vlobs == old(vlobs)[OrgVlob(org, id) := Vlob(realmId, [Atom(blob, author, timestamp)])]
      ensures err.Some? ==> vlobs == old(vlobs) && perRealmChanges == old(perRealmChanges)
    {
      err := CheckRealmAccess(OrgRealm(org, realmId), author.userId, Some(revision), CAN_WRITE, false);
      if err.Some? {
        return err;
      }
      var key := OrgVlob(org, id);
      if key in vlobs {
        return Some(VlobAlreadyExists);
      }
      CreateVlobKeeps(Snapshot(), org, author, realmId, revision, id, Atom(blob, author, timestamp));
      vlobs := vlobs[key := Vlob(realmId, [Atom(blob, author, timestamp)])];
      UpdateChanges(author, OrgRealm(org, realmId), id, 1);
    }

    method Update(
      org: OrganizationId, author: DeviceId, revision: int, id: VlobId, version: int, timestamp: Timestamp, blob: Bytes)
      returns (err: Option<VlobError>)
      requires Valid()
      modifies this`vlobs, this`perRealmChanges, this`log
      ensures Valid()
      ensures err == UpdateVlobError(old(Snapshot()), org, author, revision, id, version, timestamp)
      ensures Snapshot() == AfterUpdateVlob(old(Snapshot()), org, author, revision, id, version, timestamp, blob)
      ensures err.None? ==>
        && OrgVlob(org, id) in old(vlobs)
        && var (v, data) := (OrgVlob(org, id), old(vlobs)[OrgVlob(org, id)].data);
           && |data| == version - 1 && (data != [] ==> data[|data| - 1].timestamp <= timestamp)
           && vlobs == old(vlobs)[v := old(vlobs)[v].(data := data + [Atom(blob, author, timestamp)])]
      ensures err.Some? ==> vlobs == old(vlobs) && perRealmChanges == old(perRealmChanges)
      ensures OrgVlob(org, id) !in old(vlobs) ==> err == Some(VlobNotFound)
      ensures OrgVlob(org, id) in old(vlobs) ==>
        var vlob := old(vlobs)[OrgVlob(org, id)];
        var access := AccessError(realmComponent.realms, OrgRealm(org, vlob.realmId), author.userId, Some(revision),
          CAN_WRITE, false);
        if access.Some? then err == access
        else
          && (err == Some(VlobVersion) <==> version != |vlob.data| + 1)
          && (err == Some(VlobTimestamp) <==>
                version == |vlob.data| + 1 && timestamp < vlob.data[|vlob.data| - 1].timestamp)
          && (err.Some? ==> err.value in {VlobVersion, VlobTimestamp})
    {
      var key := OrgVlob(org, id);
      if key !in vlobs {
        return Some(VlobNotFound);
      }
      var vlob := vlobs[key];
      err := CheckRealmAccess(OrgRealm(org, vlob.realmId), author.userId, Some(revision), CAN_WRITE, false);
      if err.Some? {
        return err;
      }
      if version - 1 != |vlob.data| {
        return Some(VlobVersion);
      }
      assert vlob.data != [];
      if timestamp < vlob.data[|vlob.data| - 1].timestamp {
        return Some(VlobTimestamp);
      }
      UpdateVlobKeeps(Snapshot(), org, author, revision, id, version, Atom(blob, author, timestamp));
      vlobs := vlobs[key := vlob.(data := vlob.data + [Atom(blob, author, timestamp)])];
      UpdateChanges(author, OrgRealm(org, vlob.realmId), id, version);
    }

    /**
     Without a version, the current one or the last one at the given time; the answer is that of an
     index into the list of versions otherwise, negative ones included.
     */
    method Read(
      org: OrganizationId, author: DeviceId, revision: int, id: VlobId, version: Option<int>,
      timestamp: Option<Timestamp>)
      returns (r: Result<(int, Atom), VlobError>)
      requires Valid()
      ensures OrgVlob(org, id) !in vlobs ==> r == Err(VlobNotFound)
      ensures OrgVlob(org, id) in vlobs ==>
        var vlob := vlobs[OrgVlob(org, id)];
        var access := AccessError(realmComponent.realms, OrgRealm(org, vlob.realmId), author.userId, Some(revision),
          CAN_READ, false);
        if access.Some? then r == Err(access.value)
        else if version.Some? then
          r == match Item(vlob.data, version.value - 1)
               case Some(atom) => Ok((version.value, atom))
               case None => Err(VlobVersion)
        else if timestamp.None? then
          vlob.data != [] && r == Ok((|vlob.data|, vlob.data[|vlob.data| - 1]))
        else if IsCut(vlob.data, timestamp.value, 0) then r == Err(VlobVersion)
        else
          && r.Ok? && r.value.0 >= 1 && IsCut(vlob.data, timestamp.value, r.value.0)
          && r.value.1 == vlob.data[r.value.0 - 1]
    {
      if OrgVlob(org, id) !in vlobs {
        return Err(VlobNotFound);
      }
      var vlob := vlobs[OrgVlob(org, id)];
      var access := CheckRealmAccess(OrgRealm(org, vlob.realmId), author.userId, Some(revision), CAN_READ, false);
      if access.Some? {
        return Err(access.value);
      }
      var wanted: int;
      if version.Some? {
        wanted := version.value;
      } else if timestamp.None? {
        wanted := |vlob.data|;
      } else {
        wanted := FindVersion(vlob.data, timestamp.value);
        if wanted == 0 {
          return Err(VlobVersion);
        }
        assert vlob.data[0].timestamp <= timestamp.value;
      }
      var atom := Item(vlob.data, wanted - 1);
      return if atom.Some? then Ok((wanted, atom.value)) else Err(VlobVersion);
    }

    method PollChanges(r: OrgRealm, author: DeviceId, checkpoint: int) returns (res: Result<(int, Versions), VlobError>)
      requires Valid()
      modifies this`perRealmChanges
      ensures Valid()
      ensures Snapshot() == AfterPoll(old(Snapshot()), r, author)
      ensures var access := AccessError(realmComponent.realms, r, author.userId, None, CAN_READ, false);
        if access.Some? then res == Err(access.value)
        else res == Ok((|LogOf(log, r)|, LogPoll(LogOf(log, r), checkpoint).1))
    {
      var access := CheckRealmAccess(r, author.userId, None, CAN_READ, false);
      if access.Some? {
        return Err(access.value);
      }
      TouchKeeps(Snapshot(), r);
      assert RealmFits(Snapshot(), r);
      perRealmChanges := perRealmChanges[r := ChangesOf(perRealmChanges, r)];
      var changes := perRealmChanges[r];
      SameChanges(LogOf(log, r), checkpoint);
      return Ok(IndexPoll(changes.changes, changes.checkpoint, checkpoint));
    }

    method GetReencryptionBatch(r: OrgRealm, author: DeviceId, revision: int, size: int)
      returns (res: Result<seq<Entry>, VlobError>)
      requires Valid()
      ensures var access := AccessError(realmComponent.realms, r, author.userId, Some(revision), CAN_MAINTAIN, true);
        if access.Some? then res == Err(access.value)
        else
          && ChangesOf(perRealmChanges, r).reencryption.Some?
          && res == Ok(GetBatch(ChangesOf(perRealmChanges, r).reencryption.value, size))
    {
      var access := CheckRealmAccess(r, author.userId, Some(revision), CAN_MAINTAIN, true);
      if access.Some? {
        return Err(access.value);
      }
      assert RealmFits(Snapshot(), r);
      assert ChangesOf(perRealmChanges, r).reencryption.Some?;
      return Ok(GetBatch(ChangesOf(perRealmChanges, r).reencryption.value, size));
    }

    /** Answers the total and the number done; what precedes an unknown version is saved even then. */
    method SaveReencryptionBatch(r: OrgRealm, author: DeviceId, revision: int, batch: seq<Entry>)
      returns (res: Result<(nat, nat), VlobError>)
      requires Valid()
      modifies this`perRealmChanges
      ensures Valid()
      ensures Snapshot() == AfterSaveBatch(old(Snapshot()), r, author, revision, batch)
      ensures var access := AccessError(realmComponent.realms, r, author.userId, Some(revision), CAN_MAINTAIN, true);
        if access.Some? then res == Err(access.value)
        else
          && ChangesOf(perRealmChanges, r).reencryption.Some?
          && var s := ChangesOf(perRealmChanges, r).reencryption.value;
             res == if AllKnown(RealmVlobs(vlobs, r), batch) then Ok((s.total, |s.done|)) else Err(VlobNotFound)
    {
      var access := CheckRealmAccess(r, author.userId, Some(revision), CAN_MAINTAIN, true);
      if access.Some? {
        return Err(access.value);
      }
      assert RealmFits(Snapshot(), r);
      var changes := ChangesOf(perRealmChanges, r);
      assert changes.reencryption.Some?;
      SaveBatchKeeps(Snapshot(), r, batch);
      SaveKeepsPartition(changes.reencryption.value, batch);
      var (s, ok) := SaveBatch(changes.reencryption.value, batch);
      perRealmChanges := perRealmChanges[r := changes.(reencryption := Some(s))];
      return if ok then Ok((s.total, |s.done|)) else Err(VlobNotFound);
    }
  }
}
