/**
 Which requests change a realm and its vlobs: for each, the facts that have to hold together, in terms of the
 roles by date and the stored records alone.  And what the versions written along a run are.
 */
module VlobPermissions {
  import opened Common
  import opened Certificates
  import opened RealmRoles
  import opened ReencryptionModel
  import opened ChangeIndex
  import opened VlobBackend
  import opened VlobComponents
  import opened VlobRuns

  /** The role a user has in a realm; strangers and unknown realms give none. */
  function RoleAt(b: Backend, r: OrgRealm, user: UserId): Option<RealmRole> {
    if r in b.realms then RoleIn(RolesByDate(b.realms[r].grantedRoles), user) else None
  }

  /** The realm is known, nothing is under way in it, and this is its encryption revision. */
  predicate AtRest(b: Backend, r: OrgRealm, revision: int) {
    r in b.realms && b.realms[r].status.maintenanceType.None? && b.realms[r].status.encryptionRevision == revision
  }

  /** The realm is under maintenance towards this encryption revision. */
  predicate InProgress(b: Backend, r: OrgRealm, revision: int) {
    r in b.realms && b.realms[r].status.maintenanceType.Some? && b.realms[r].status.encryptionRevision == revision
  }

  predicate MayWrite(b: Backend, r: OrgRealm, user: UserId) {
    RoleAt(b, r, user) in {Some(Owner), Some(Manager), Some(Contributor)}
  }

  /** Only owners touch owners and managers, managers the others; nobody touches anybody else's role. */
  predicate MayMove(author: Option<RealmRole>, existing: Option<RealmRole>, role: Option<RealmRole>) {
    match author
    case Some(Owner) => true
    case Some(Manager) => existing !in {Some(Owner), Some(Manager)} && role !in {Some(Owner), Some(Manager)}
    case _ => false
  }

  /** A vlob that this update may add the next version to. */
  predicate MayAppend(b: Backend, v: OrgVlob, version: int, timestamp: Timestamp) {
    && v in b.vlobs && |b.vlobs[v].data| == version - 1
    && (b.vlobs[v].data != [] ==> b.vlobs[v].data[|b.vlobs[v].data| - 1].timestamp <= timestamp)
  }

  ghost predicate MessageForEveryMember(b: Backend, users: Users, now: Timestamp, r: OrgRealm, recipients: set<UserId>)
  {
    && (forall user :: RoleAt(b, r, user).Some? ==> OrgUser(r.org, user) in users)
    && (forall user :: user in recipients <==>
          && RoleAt(b, r, user).Some? && OrgUser(r.org, user) in users
          && (users[OrgUser(r.org, user)].revokedOn.Some? ==> now < users[OrgUser(r.org, user)].revokedOn.value))
  }

  ghost predicate Permitted(b: Backend, op: Operation) {
    match op
    case CreateRealm(org, x) => OrgRealm(org, x.realmId) !in b.realms
    case UpdateRoles(users, org, x) => RolesPermitted(b, users, OrgRealm(org, x.realmId), x)
    case StartMaintenance(users, now, r, author, revision, recipients, _) =>
      && RoleAt(b, r, author.userId) == Some(Owner) && AtRest(b, r, revision - 1)
      && MessageForEveryMember(b, users, now, r, recipients)
    case FinishMaintenance(r, author, revision) =>
      && RoleAt(b, r, author.userId) == Some(Owner) && InProgress(b, r, revision)
      && Running(b, r).Some? && Running(b, r).value.todo == []
    case CreateVlob(org, author, realm, revision, id, _, _) =>
      && MayWrite(b, OrgRealm(org, realm), author.userId) && AtRest(b, OrgRealm(org, realm), revision)
      && OrgVlob(org, id) !in b.vlobs
    case UpdateVlob(org, author, revision, id, version, timestamp, _) =>
      && MayAppend(b, OrgVlob(org, id), version, timestamp)
      && var r := OrgRealm(org, b.vlobs[OrgVlob(org, id)].realmId);
         MayWrite(b, r, author.userId) && AtRest(b, r, revision)
    case Poll(r, author) => RoleAt(b, r, author.userId).Some? && r in b.realms && AtRest(b, r, Revision(b, r))
    case SaveReencrypted(r, author, revision, _) =>
      RoleAt(b, r, author.userId) == Some(Owner) && InProgress(b, r, revision)
  }

  ghost predicate RolesPermitted(b: Backend, users: Users, r: OrgRealm, x: GrantedRole) {
    && OrgUser(r.org, x.userId) in users
    && (users[OrgUser(r.org, x.userId)].profile == Outsider ==> x.role !in {Some(Owner), Some(Manager)})
    && r in b.realms && b.realms[r].status.maintenanceType.None?
    && MayMove(RoleAt(b, r, x.grantedBy.userId), RoleAt(b, r, x.userId), x.role)
    && RoleAt(b, r, x.userId) != x.role
  }

  // ---------- a request changes something exactly when it is permitted ----------

  lemma CreateRealmIsPermitted(a: Backend, op: Operation, b: Backend)
    requires Step(a, op, b) && op.CreateRealm?
    ensures b != a <==> Permitted(a, op)
  {
  }

  lemma UpdateRolesIsPermitted(a: Backend, op: Operation, b: Backend)
    requires Step(a, op, b) && op.UpdateRoles?
    ensures b != a <==> Permitted(a, op)
  {
    var r := OrgRealm(op.org, op.role.realmId);
    if UpdateRolesError(a, op.users, op.org, op.role).None? {
      assert |b.realms[r].grantedRoles| == |a.realms[r].grantedRoles| + 1;
    }
  }

  lemma MembersAreTheRoles(a: Backend, users: Users, now: Timestamp, r: OrgRealm, recipients: set<UserId>)
    requires r in a.realms
    ensures MessageForEveryMember(a, users, now, r, recipients) <==>
      && !(exists user :: user in RolesOf(a.realms[r]) && OrgUser(r.org, user) !in users)
      && recipients == set user | user in RolesOf(a.realms[r]) && Active(users, r.org, user, now)
  {
    assert forall user :: user in RolesOf(a.realms[r]) <==> RoleAt(a, r, user).Some?;
  }

  lemma StartIsPermitted(a: Backend, op: Operation, b: Backend)
    requires Step(a, op, b) && op.StartMaintenance?
    ensures b != a <==> Permitted(a, op)
  {
    if op.r in a.realms {
      MembersAreTheRoles(a, op.users, op.now, op.r, op.recipients);
      if StartError(a, op.users, op.now, op.r, op.author, op.revision, op.recipients).None? {
        assert b.realms[op.r].status.maintenanceType.Some?;
      }
    }
  }

  lemma FinishIsPermitted(a: Backend, op: Operation, b: Backend)
    requires Consistent(a) && Step(a, op, b) && op.FinishMaintenance?
    ensures b != a <==> Permitted(a, op)
  {
    AfterFinishKeeps(a, op.r, op.author, op.revision);
    if FinishError(a, op.r, op.author, op.revision).None? {
      assert b.realms[op.r].status.maintenanceType.None?;
    }
  }

  lemma WriteLogs(a: Backend, r: OrgRealm, b: Backend)
    requires |LogOf(b.log, r)| == |LogOf(a.log, r)| + 1
    ensures b != a
  {
  }

  lemma CreateVlobIsPermitted(a: Backend, op: Operation, b: Backend)
    requires Step(a, op, b) && op.CreateVlob?
    ensures b != a <==> Permitted(a, op)
  {
    if CreateVlobError(a, op.org, op.author, op.realm, op.revision, op.id).None? {
      WriteLogs(a, OrgRealm(op.org, op.realm), b);
    }
  }

  lemma UpdateVlobIsPermitted(a: Backend, op: Operation, b: Backend)
    requires Step(a, op, b) && op.UpdateVlob?
    ensures b != a <==> Permitted(a, op)
  {
    if UpdateVlobError(a, op.org, op.author, op.revision, op.id, op.version, op.timestamp).None? {
      WriteLogs(a, OrgRealm(op.org, a.vlobs[OrgVlob(op.org, op.id)].realmId), b);
    }
  }

  /** A poll makes at most a default record, and an accepted batch may save nothing new. */
  lemma OthersArePermitted(a: Backend, op: Operation, b: Backend)
    requires Step(a, op, b) && (op.Poll? || op.SaveReencrypted?)
    ensures b != a ==> Permitted(a, op)
    ensures op.SaveReencrypted? ==> (SavedFor(a, op, op.r) == [Save(op.batch)] <==> Permitted(a, op))
  {
  }

  /**
   Along any run, a state changes only by a permitted request.  A permitted one always changes it, except
   for polling and for batches, which may bring nothing new.
   */
  lemma ChangesArePermitted(states: seq<Backend>, ops: seq<Operation>, i: nat)
    requires IsRun(states, ops) && i < |ops|
    ensures states[i + 1] != states[i] ==> Permitted(states[i], ops[i])
    ensures Permitted(states[i], ops[i]) && !ops[i].Poll? && !ops[i].SaveReencrypted? ==> states[i + 1] != states[i]
  {
    var a, op, b := states[i], ops[i], states[i + 1];
    EveryRunIsConsistent(states, ops, i);
    StepOfRun(states, ops, i);
    match op
    case CreateRealm(_, _) => CreateRealmIsPermitted(a, op, b);
    case UpdateRoles(_, _, _) => UpdateRolesIsPermitted(a, op, b);
    case StartMaintenance(_, _, _, _, _, _, _) => StartIsPermitted(a, op, b);
    case FinishMaintenance(_, _, _) => FinishIsPermitted(a, op, b);
    case CreateVlob(_, _, _, _, _, _, _) => CreateVlobIsPermitted(a, op, b);
    case UpdateVlob(_, _, _, _, _, _, _) => UpdateVlobIsPermitted(a, op, b);
    case _ => OthersArePermitted(a, op, b);
  }

  /** Any member may read, in a realm that is at rest in the revision it names, if it names one. */
  lemma ReadingIsPermitted(b: Backend, r: OrgRealm, user: UserId, revision: Option<int>)
    ensures AccessError(b.realms, r, user, revision, CAN_READ, false).None? <==>
      && RoleAt(b, r, user) in {Some(Owner), Some(Manager), Some(Contributor), Some(Reader)}
      && r in b.realms && AtRest(b, r, if revision.Some? then revision.value else Revision(b, r))
  {
  }

  // ---------- the versions that are written ----------

  /** The operation writes this atom as this version of the vlob; versions count from one. */
  ghost predicate Writes(op: Operation, v: OrgVlob, version: int, atom: Atom) {
    match op
    case CreateVlob(org, author, _, _, id, timestamp, blob) =>
      v == OrgVlob(org, id) && version == 1 && atom == Atom(blob, author, timestamp)
    case UpdateVlob(org, author, _, id, named, timestamp, blob) =>
      v == OrgVlob(org, id) && version == named && atom == Atom(blob, author, timestamp)
    case _ => false
  }

  /** A version that was not there before the step is the one the operation names. */
  lemma NewVersionIsNamed(a: Backend, op: Operation, b: Backend, v: OrgVlob, i: nat)
    requires Consistent(a) && Step(a, op, b) && v in b.vlobs && i < |b.vlobs[v].data|
    requires v in a.vlobs ==> |a.vlobs[v].data| <= i
    ensures Writes(op, v, i + 1, b.vlobs[v].data[i])
  {
    if op.FinishMaintenance? {
      AfterFinishKeeps(a, op.r, op.author, op.revision);
      if FinishError(a, op.r, op.author, op.revision).None? {
        FinishReplaces(a, op.r);
        assert false;
      }
    } else if op.UpdateVlob? {
      UpdateVlobIsPermitted(a, op, b);
    }
  }

  /** A version present after a step was there before, by the same author and of the same date, or is written by it. */
  ghost predicate KeptOrWritten(a: Backend, op: Operation, b: Backend, v: OrgVlob, i: nat) {
    v in b.vlobs && i < |b.vlobs[v].data| ==>
      var atom := b.vlobs[v].data[i];
      if v in a.vlobs && i < |a.vlobs[v].data|
      then atom.author == a.vlobs[v].data[i].author && atom.timestamp == a.vlobs[v].data[i].timestamp
      else Writes(op, v, i + 1, atom)
  }

  ghost predicate KeptOrWrittenAt(states: seq<Backend>, ops: seq<Operation>, k: nat, v: OrgVlob, i: nat)
    requires k < |ops| && |states| == |ops| + 1
  {
    KeptOrWritten(states[k], ops[k], states[k + 1], v, i)
  }

  lemma VersionIsKeptOrWritten(states: seq<Backend>, ops: seq<Operation>, k: nat, v: OrgVlob, i: nat)
    requires IsRun(states, ops) && k < |ops|
    ensures KeptOrWrittenAt(states, ops, k, v, i)
  {
    EveryRunIsConsistent(states, ops, k);
    StepOfRun(states, ops, k);
    StepKeepsVlob(states[k], ops[k], states[k + 1], v);
    if v in states[k + 1].vlobs && i < |states[k + 1].vlobs[v].data| {
      if v !in states[k].vlobs || |states[k].vlobs[v].data| <= i {
        NewVersionIsNamed(states[k], ops[k], states[k + 1], v, i);
      }
    }
  }

  /** Operation `k` wrote this version, which still bears its author and date at moment `n`. */
  ghost predicate WrittenAt(states: seq<Backend>, ops: seq<Operation>, n: nat, v: OrgVlob, i: nat, k: nat)
    requires k < |ops| && |states| == |ops| + 1 && n < |states|
  {
    && v in states[n].vlobs && i < |states[n].vlobs[v].data|
    && v in states[k + 1].vlobs && i < |states[k + 1].vlobs[v].data|
    && var (atom, first) := (states[n].vlobs[v].data[i], states[k + 1].vlobs[v].data[i]);
       Writes(ops[k], v, i + 1, first) && atom.author == first.author && atom.timestamp == first.timestamp
  }

  lemma {:induction false} WrittenSomewhere(states: seq<Backend>, ops: seq<Operation>, n: nat, v: OrgVlob, i: nat)
    returns (k: nat)
    requires |states| == |ops| + 1 && v !in states[0].vlobs
    requires forall m :: 0 <= m < |ops| ==> KeptOrWrittenAt(states, ops, m, v, i)
    requires n < |states| && v in states[n].vlobs && i < |states[n].vlobs[v].data|
    ensures k < n && WrittenAt(states, ops, n, v, i, k)
  {
    assert KeptOrWrittenAt(states, ops, n - 1, v, i);
    if v in states[n - 1].vlobs && i < |states[n - 1].vlobs[v].data| {
      k := WrittenSomewhere(states, ops, n - 1, v, i);
    } else {
      k := n - 1;
    }
  }

  /** Every version of a reached state was written by one operation, whose author and date it still bears. */
  lemma EveryVersionWasWritten(states: seq<Backend>, ops: seq<Operation>, n: nat, v: OrgVlob, i: nat)
    returns (k: nat)
    requires IsRun(states, ops) && n < |states| && v in states[n].vlobs && i < |states[n].vlobs[v].data|
    ensures k < n && WrittenAt(states, ops, n, v, i, k)
  {
    forall m | 0 <= m < |ops| ensures KeptOrWrittenAt(states, ops, m, v, i) {
      VersionIsKeptOrWritten(states, ops, m, v, i);
    }
    k := WrittenSomewhere(states, ops, n, v, i);
  }

  /**
   An update that is accepted names the version after the last one, and writes that version and no other;
   the log gets its row.
   */
  lemma UpdateWritesItsVersion(states: seq<Backend>, ops: seq<Operation>, i: nat)
    requires IsRun(states, ops) && i < |ops| && ops[i].UpdateVlob? && states[i + 1] != states[i]
    ensures var (a, op, b, v) := (states[i], ops[i], states[i + 1], OrgVlob(ops[i].org, ops[i].id));
      && v in a.vlobs && v in b.vlobs && op.version == |a.vlobs[v].data| + 1
      && b.vlobs[v].data == a.vlobs[v].data + [Atom(op.blob, op.author, op.timestamp)]
      && (forall w :: w in b.vlobs && w != v ==> w in a.vlobs && b.vlobs[w] == a.vlobs[w])
      && var r := OrgRealm(op.org, a.vlobs[v].realmId);
         LogOf(b.log, r) == LogOf(a.log, r) + [Row(op.id, op.version, op.author)]
  {
    StepOfRun(states, ops, i);
    UpdateVlobIsPermitted(states[i], ops[i], states[i + 1]);
  }

  /** A creation that is accepted makes a vlob of one version where there was none, and logs it. */
  lemma CreationWritesFirstVersion(states: seq<Backend>, ops: seq<Operation>, i: nat)
    requires IsRun(states, ops) && i < |ops| && ops[i].CreateVlob? && states[i + 1] != states[i]
    ensures var (a, op, b, v) := (states[i], ops[i], states[i + 1], OrgVlob(ops[i].org, ops[i].id));
      && v !in a.vlobs
      && b.vlobs == a.vlobs[v := Vlob(op.realm, [Atom(op.blob, op.author, op.timestamp)])]
      && var r := OrgRealm(op.org, op.realm);
         LogOf(b.log, r) == LogOf(a.log, r) + [Row(op.id, 1, op.author)]
  {
    StepOfRun(states, ops, i);
    CreateVlobIsPermitted(states[i], ops[i], states[i + 1]);
  }

  /** Concurrent writes are told apart: of two accepted updates of one vlob, the later one names a later version. */
  lemma AcceptedVersionsGrow(states: seq<Backend>, ops: seq<Operation>, i: nat, j: nat)
    requires IsRun(states, ops) && i < j < |ops| && ops[i].UpdateVlob? && ops[j].UpdateVlob?
    requires ops[i].org == ops[j].org && ops[i].id == ops[j].id
    requires states[i + 1] != states[i] && states[j + 1] != states[j]
    ensures ops[i].version < ops[j].version
  {
    UpdateWritesItsVersion(states, ops, i);
    UpdateWritesItsVersion(states, ops, j);
    VlobGrowsAlongRun(states, ops, i + 1, j, OrgVlob(ops[i].org, ops[i].id));
  }
}
