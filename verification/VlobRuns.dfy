/**
 Whole runs of the realm and vlob components: what every run keeps, how histories grow, what a
 polling client holds and what reads at a past moment answer.
 */
module VlobRuns {
  import opened Common
  import opened Certificates
  import opened RealmRoles
  import opened ReencryptionModel
  import opened ChangeIndex
  import opened VlobBackend
  import opened VlobComponents

  datatype Operation =
    | CreateRealm(org: OrganizationId, role: GrantedRole)
    | UpdateRoles(users: Users, org: OrganizationId, role: GrantedRole)
    | StartMaintenance(users: Users, now: Timestamp, r: OrgRealm, author: DeviceId, revision: int,
      recipients: set<UserId>, timestamp: Timestamp)
    | FinishMaintenance(r: OrgRealm, author: DeviceId, revision: int)
    | CreateVlob(org: OrganizationId, author: DeviceId, realm: RealmId, revision: int, id: VlobId,
      timestamp: Timestamp, blob: Bytes)
    | UpdateVlob(org: OrganizationId, author: DeviceId, revision: int, id: VlobId, version: int, timestamp: Timestamp,
      blob: Bytes)
    | Poll(r: OrgRealm, author: DeviceId)
    | SaveReencrypted(r: OrgRealm, author: DeviceId, revision: int, batch: seq<Entry>)

  /** The demands that the two role operations make of their callers. */
  predicate Callable(op: Operation) {
    match op
    case CreateRealm(_, x) => x.grantedBy.userId == x.userId && x.role == Some(Owner)
    case UpdateRoles(_, _, x) => x.grantedBy.userId != x.userId
    case _ => true
  }

  ghost predicate Step(a: Backend, op: Operation, b: Backend) {
    && Callable(op)
    && match op
       case CreateRealm(org, x) => b == AfterCreateRealm(a, org, x)
       case UpdateRoles(users, org, x) => b == AfterUpdateRoles(a, users, org, x)
       case StartMaintenance(users, now, r, author, revision, recipients, timestamp) =>
         IsAfterStart(a, users, now, r, author, revision, recipients, timestamp, b)
       case FinishMaintenance(r, author, revision) => b == AfterFinish(a, r, author, revision)
       case CreateVlob(org, author, realm, revision, id, timestamp, blob) =>
         b == AfterCreateVlob(a, org, author, realm, revision, id, timestamp, blob)
       case UpdateVlob(org, author, revision, id, version, timestamp, blob) =>
         b == AfterUpdateVlob(a, org, author, revision, id, version, timestamp, blob)
       case Poll(r, author) => b == AfterPoll(a, r, author)
       case SaveReencrypted(r, author, revision, batch) => b == AfterSaveBatch(a, r, author, revision, batch)
  }

  /** Any operations by anyone, accepted or refused, from the empty backend. */
  ghost predicate IsRun(states: seq<Backend>, ops: seq<Operation>) {
    && |states| == |ops| + 1
    && states[0] == NO_BACKEND
    && forall i :: 0 <= i < |ops| ==> Step(states[i], ops[i], states[i + 1])
  }

  // ---------- one step ----------

  lemma StepKeepsConsistent(a: Backend, op: Operation, b: Backend)
    requires Consistent(a) && Step(a, op, b)
    ensures Consistent(b)
  {
    match op
    case CreateRealm(org, x) =>
      if OrgRealm(org, x.realmId) !in a.realms {
        CreateRealmKeeps(a, OrgRealm(org, x.realmId), x);
      }
    case UpdateRoles(users, org, x) =>
      if UpdateRolesError(a, users, org, x).None? {
        UpdateRolesKeeps(a, users, org, x);
      }
    case StartMaintenance(users, now, r, author, revision, recipients, timestamp) =>
      if StartError(a, users, now, r, author, revision, recipients).None? {
        var s :| IsStart(s, r.realm, RealmVlobs(a.vlobs, r)) && b == Started(a, r, author, timestamp, s);
        StartKeeps(a, r, author, timestamp, s);
      }
    case FinishMaintenance(r, author, revision) =>
      if FinishError(a, r, author, revision).None? && Finishable(a, r) {
        FinishKeeps(a, r);
      }
    case CreateVlob(org, author, realm, revision, id, timestamp, blob) =>
      if CreateVlobError(a, org, author, realm, revision, id).None? {
        CreateVlobKeeps(a, org, author, realm, revision, id, Atom(blob, author, timestamp));
      }
    case UpdateVlob(org, author, revision, id, version, timestamp, blob) =>
      if UpdateVlobError(a, org, author, revision, id, version, timestamp).None? {
        UpdateVlobKeeps(a, org, author, revision, id, version, Atom(blob, author, timestamp));
      }
    case Poll(r, author) =>
      TouchKeeps(a, r);
    case SaveReencrypted(r, author, revision, batch) =>
      if ChangesOf(a.changes, r).reencryption.Some? {
        SaveBatchKeeps(a, r, batch);
      }
  }

  function Revision(b: Backend, r: OrgRealm): int
    requires r in b.realms
  {
    b.realms[r].status.encryptionRevision
  }

  /** The revision grows by one when the realm enters maintenance, and at no other step; a new realm has revision 1. */
  ghost predicate RevisionGrows(a: Backend, b: Backend, r: OrgRealm) {
    && (r in a.realms ==>
          r in b.realms && Revision(b, r) == Revision(a, r) + if !InMaintenance(a, r) &&
            InMaintenance(b, r) then 1 else 0)
    && (r in b.realms && r !in a.realms ==> Revision(b, r) == 1 && !InMaintenance(b, r))
  }

  /** No version goes away, and none changes its author or date. */
  ghost predicate SameUpTo(longer: seq<Atom>, data: seq<Atom>) {
    && |data| <= |longer|
    && forall i :: 0 <= i < |data| ==> longer[i].author == data[i].author && longer[i].timestamp == data[i].timestamp
  }

  ghost predicate VlobGrows(a: AllVlobs, b: AllVlobs, v: OrgVlob) {
    v in a ==> v in b && b[v].realmId == a[v].realmId && SameUpTo(b[v].data, a[v].data)
  }

  /** The blobs of a realm change only when its maintenance ends, and nothing changes while it lasts. */
  ghost predicate BlobsKept(a: Backend, b: Backend, v: OrgVlob) {
    v in a.vlobs && v in b.vlobs ==>
      var r := OrgRealm(v.org, a.vlobs[v].realmId);
      && (!InMaintenance(a, r) || InMaintenance(b, r) ==> a.vlobs[v].data <= b.vlobs[v].data)
      && (InMaintenance(a, r) && InMaintenance(b, r) ==> a.vlobs[v] == b.vlobs[v])
  }

  ghost predicate LogGrows(a: Backend, b: Backend, r: OrgRealm) {
    LogOf(a.log, r) <= LogOf(b.log, r)
  }

  lemma StepMovesRevision(a: Backend, op: Operation, b: Backend, r: OrgRealm)
    requires Step(a, op, b)
    ensures RevisionGrows(a, b, r)
  {
    match op
    case StartMaintenance(_, _, _, _, _, _, _) => StartMovesRevision(a, op, b, r);
    case FinishMaintenance(_, _, _) => FinishMovesRevision(a, op, b, r);
    case _ =>
  }

  lemma StartMovesRevision(a: Backend, op: Operation, b: Backend, r: OrgRealm)
    requires op.StartMaintenance? && Step(a, op, b)
    ensures RevisionGrows(a, b, r)
  {
  }

  lemma FinishMovesRevision(a: Backend, op: Operation, b: Backend, r: OrgRealm)
    requires op.FinishMaintenance? && Step(a, op, b)
    ensures RevisionGrows(a, b, r)
  {
  }

  lemma StepGrowsLog(a: Backend, op: Operation, b: Backend, r: OrgRealm)
    requires Step(a, op, b)
    ensures LogGrows(a, b, r)
  {
  }

  lemma FinishKeepsHistory(a: Backend, r: OrgRealm, author: DeviceId, revision: int, v: OrgVlob)
    requires Consistent(a)
    ensures var b := AfterFinish(a, r, author, revision);
      VlobGrows(a.vlobs, b.vlobs, v) && BlobsKept(a, b, v)
  {
    if FinishError(a, r, author, revision).None? && Finishable(a, r) {
      assert RealmFits(a, r);
      FinishReplaces(a, r);
      FinishedKeepsVlob(a, r, Finished(a, r).vlobs, v);
    }
  }

  lemma FinishedKeepsVlob(a: Backend, r: OrgRealm, after: AllVlobs, v: OrgVlob)
    requires InMaintenance(a, r) && ReplacedWithin(a.vlobs, r, after)
    ensures VlobGrows(a.vlobs, after, v) && BlobsKept(a, FinishedWith(a, r, after), v)
  {
  }

  /** Every step keeps a vlob's versions, their authors and dates; its blobs too, unless a reencryption ends. */
  lemma StepKeepsVlob(a: Backend, op: Operation, b: Backend, v: OrgVlob)
    requires Consistent(a) && Step(a, op, b)
    ensures VlobGrows(a.vlobs, b.vlobs, v) && BlobsKept(a, b, v)
  {
    if op.FinishMaintenance? {
      FinishKeepsHistory(a, op.r, op.author, op.revision, v);
    } else {
      OtherStepKeepsVlob(a, op, b, v);
    }
  }

  lemma OtherStepKeepsVlob(a: Backend, op: Operation, b: Backend, v: OrgVlob)
    requires Step(a, op, b) && !op.FinishMaintenance?
    ensures VlobGrows(a.vlobs, b.vlobs, v) && BlobsKept(a, b, v)
  {
  }

  lemma VlobGrowsOn(a: AllVlobs, b: AllVlobs, c: AllVlobs, v: OrgVlob)
    requires VlobGrows(a, b, v) && VlobGrows(b, c, v)
    ensures VlobGrows(a, c, v)
  {
  }

  // ---------- runs ----------

  lemma {:induction false} EveryRunIsConsistent(states: seq<Backend>, ops: seq<Operation>, i: nat)
    requires IsRun(states, ops) && i < |states|
    ensures Consistent(states[i])
  {
    if i == 0 {
      NothingIsConsistent();
    } else {
      EveryRunIsConsistent(states, ops, i - 1);
      StepOfRun(states, ops, i - 1);
      StepKeepsConsistent(states[i - 1], ops[i - 1], states[i]);
    }
  }

  lemma StepOfRun(states: seq<Backend>, ops: seq<Operation>, i: nat)
    requires IsRun(states, ops) && i < |ops|
    ensures Step(states[i], ops[i], states[i + 1])
  {
  }

  /** Consistency spelled out: the checks on the reencryption record cannot fail, and every realm has an owner. */
  lemma EveryRunMatchesMaintenance(states: seq<Backend>, ops: seq<Operation>, i: nat, r: OrgRealm)
    requires IsRun(states, ops) && i < |states|
    ensures var (b, reencryption) := (states[i], ChangesOf(states[i].changes, r).reencryption);
      && (reencryption.Some? <==> r in b.realms && b.realms[r].status.maintenanceType.Some?)
      && (reencryption.Some? ==> Partition(reencryption.value) && reencryption.value.original == RealmVlobs(b.vlobs, r))
      && (r in b.realms ==> HasOwner(b.realms[r].grantedRoles))
  {
    EveryRunIsConsistent(states, ops, i);
    assert RealmFits(states[i], r);
  }

  lemma EveryStepOfARun(states: seq<Backend>, ops: seq<Operation>, i: nat, r: OrgRealm, v: OrgVlob)
    requires IsRun(states, ops) && i < |ops|
    ensures RevisionGrows(states[i], states[i + 1], r)
    ensures LogGrows(states[i], states[i + 1], r)
    ensures VlobGrows(states[i].vlobs, states[i + 1].vlobs, v)
    ensures BlobsKept(states[i], states[i + 1], v)
  {
    EveryRunIsConsistent(states, ops, i);
    assert Step(states[i], ops[i], states[i + 1]);
    StepMovesRevision(states[i], ops[i], states[i + 1], r);
    StepGrowsLog(states[i], ops[i], states[i + 1], r);
    StepKeepsVlob(states[i], ops[i], states[i + 1], v);
  }

  /** How often the realm entered maintenance up to state `i`. */
  ghost function Starts(states: seq<Backend>, r: OrgRealm, i: nat): nat
    requires i < |states|
  {
    if i == 0 then 0
    else Starts(states, r, i - 1) + if !InMaintenance(states[i - 1], r) && InMaintenance(states[i], r) then 1 else 0
  }

  /** The encryption revision of a realm is one more than the number of maintenances started. */
  lemma RevisionCountsStarts(states: seq<Backend>, ops: seq<Operation>, r: OrgRealm, i: nat)
    requires IsRun(states, ops) && i < |states| && r in states[i].realms
    ensures Revision(states[i], r) == 1 + Starts(states, r, i)
  {
    forall k | 1 <= k < |states| ensures RevisionGrows(states[k - 1], states[k], r) {
      EveryStepOfARun(states, ops, k - 1, r, OrgVlob(r.org, 0));
    }
    StepwiseStarts(states, r, i);
  }

  ghost predicate RevisionStepwise(states: seq<Backend>, r: OrgRealm) {
    && states != [] && r !in states[0].realms
    && forall k :: 1 <= k < |states| ==> RevisionGrows(states[k - 1], states[k], r)
  }

  lemma {:induction false} StepwiseStarts(states: seq<Backend>, r: OrgRealm, i: nat)
    requires RevisionStepwise(states, r) && i < |states|
    ensures r in states[i].realms ==> Revision(states[i], r) == 1 + Starts(states, r, i)
    ensures r !in states[i].realms ==> Starts(states, r, i) == 0
  {
    if i > 0 {
      StepwiseStarts(states, r, i - 1);
      assert RevisionGrows(states[i - 1], states[i], r);
    }
  }

  ghost predicate GrowsStepwise(states: seq<Backend>, v: OrgVlob) {
    forall k :: 1 <= k < |states| ==> VlobGrows(states[k - 1].vlobs, states[k].vlobs, v)
  }

  lemma {:induction false} StepwiseGrows(states: seq<Backend>, i: nat, j: nat, v: OrgVlob)
    requires GrowsStepwise(states, v) && i <= j < |states|
    ensures VlobGrows(states[i].vlobs, states[j].vlobs, v)
    decreases j
  {
    if i < j {
      StepwiseGrows(states, i, j - 1, v);
      VlobGrowsOn(states[i].vlobs, states[j - 1].vlobs, states[j].vlobs, v);
    }
  }

  lemma VlobGrowsAlongRun(states: seq<Backend>, ops: seq<Operation>, i: nat, j: nat, v: OrgVlob)
    requires IsRun(states, ops) && i <= j < |states|
    ensures VlobGrows(states[i].vlobs, states[j].vlobs, v)
  {
    forall k | 1 <= k < |states| ensures VlobGrows(states[k - 1].vlobs, states[k].vlobs, v) {
      EveryStepOfARun(states, ops, k - 1, OrgRealm(v.org, 0), v);
    }
    StepwiseGrows(states, i, j, v);
  }

  lemma {:induction false} LogGrowsAlongRun(states: seq<Backend>, ops: seq<Operation>, i: nat, j: nat, r: OrgRealm)
    requires IsRun(states, ops) && i <= j < |states|
    ensures LogGrows(states[i], states[j], r)
    decreases j
  {
    if i < j {
      LogGrowsAlongRun(states, ops, i, j - 1, r);
      StepGrowsLog(states[j - 1], ops[j - 1], states[j], r);
    }
  }

  // ---------- a whole reencryption within a run ----------

  ghost predicate InMaintenanceFrom(states: seq<Backend>, r: OrgRealm, i: nat, j: nat) {
    i <= j < |states| && forall k :: i <= k <= j ==> InMaintenance(states[k], r)
  }

  /** The batch that an operation saves for the realm, if it is allowed to. */
  function SavedFor(b: Backend, op: Operation, r: OrgRealm): seq<Request> {
    if op.SaveReencrypted? && op.r == r
      && AccessError(b.realms, r, op.author.userId, Some(op.revision), CAN_MAINTAIN, true).None?
    then [Save(op.batch)]
    else []
  }

  /** The batches saved for the realm between two moments. */
  function SavesBetween(states: seq<Backend>, ops: seq<Operation>, r: OrgRealm, i: nat, j: nat): seq<Request>
    requires i <= j < |states| && |states| == |ops| + 1
  {
    if i == j then [] else SavesBetween(states, ops, r, i, j - 1) + SavedFor(states[j - 1], ops[j - 1], r)
  }

  function Running(b: Backend, r: OrgRealm): Option<State> { ChangesOf(b.changes, r).reencryption }

  /** While maintenance lasts, the reencryption changes by the accepted saves only. */
  lemma StepServes(a: Backend, op: Operation, b: Backend, r: OrgRealm)
    requires Step(a, op, b) && InMaintenance(a, r) && InMaintenance(b, r) && Running(a, r).Some?
    ensures Running(b, r) == Some(Serve(Running(a, r).value, SavedFor(a, op, r)))
  {
    if op.SaveReencrypted? {
      ServeOneSave(Running(a, r).value, op.batch);
    } else {
      OtherStepServes(a, op, b, r);
    }
  }

  lemma OtherStepServes(a: Backend, op: Operation, b: Backend, r: OrgRealm)
    requires Step(a, op, b) && InMaintenance(a, r) && InMaintenance(b, r) && !op.SaveReencrypted?
    ensures Running(b, r) == Running(a, r)
  {
  }

  ghost predicate ServesAt(states: seq<Backend>, ops: seq<Operation>, r: OrgRealm, k: nat)
    requires 0 < k < |states| == |ops| + 1
  {
    && Running(states[k - 1], r).Some?
    && Running(states[k], r) == Some(Serve(Running(states[k - 1], r).value, SavedFor(states[k - 1], ops[k - 1], r)))
  }

  lemma StepOfRunServes(states: seq<Backend>, ops: seq<Operation>, r: OrgRealm, k: nat)
    requires IsRun(states, ops) && 0 < k < |states| && InMaintenance(states[k - 1], r) && InMaintenance(states[k], r)
    ensures ServesAt(states, ops, r, k)
  {
    EveryRunMatchesMaintenance(states, ops, k - 1, r);
    assert Step(states[k - 1], ops[k - 1], states[k - 1 + 1]);
    StepServes(states[k - 1], ops[k - 1], states[k], r);
  }

  lemma {:induction false} ServesOn(states: seq<Backend>, ops: seq<Operation>, r: OrgRealm, i: nat, j: nat)
    requires i <= j < |states| == |ops| + 1 && Running(states[i], r).Some?
    requires forall k :: i < k <= j ==> ServesAt(states, ops, r, k)
    ensures Running(states[j], r) == Some(Serve(Running(states[i], r).value, SavesBetween(states, ops, r, i, j)))
    decreases j
  {
    if i < j {
      ServesOn(states, ops, r, i, j - 1);
      assert ServesAt(states, ops, r, j);
      ServeSaved(
        Running(states[i], r).value, SavesBetween(states, ops, r, i, j - 1), SavedFor(states[j - 1], ops[j - 1], r));
    }
  }

  lemma RunServes(states: seq<Backend>, ops: seq<Operation>, r: OrgRealm, i: nat, j: nat)
    requires IsRun(states, ops) && InMaintenanceFrom(states, r, i, j)
    ensures Running(states[i], r).Some?
    ensures Running(states[j], r) == Some(Serve(Running(states[i], r).value, SavesBetween(states, ops, r, i, j)))
  {
    EveryRunMatchesMaintenance(states, ops, i, r);
    forall k | i < k <= j ensures ServesAt(states, ops, r, k) {
      StepOfRunServes(states, ops, r, k);
    }
    ServesOn(states, ops, r, i, j);
  }

  lemma ServeSaved(s: State, requests: seq<Request>, more: seq<Request>)
    requires |more| <= 1
    ensures Serve(s, requests + more) == Serve(Serve(s, requests), more)
  {
    if more == [] {
      assert requests + more == requests;
    } else {
      assert more == [more[0]];
      ServeOneMore(s, requests, more[0]);
    }
  }

  lemma MaintenanceBegins(a: Backend, op: Operation, b: Backend, r: OrgRealm)
    requires Step(a, op, b) && !InMaintenance(a, r) && InMaintenance(b, r)
    ensures Running(b, r).Some? && IsStart(Running(b, r).value, r.realm, RealmVlobs(a.vlobs, r))
  {
  }

  lemma MaintenanceEnds(a: Backend, op: Operation, b: Backend, r: OrgRealm)
    requires Step(a, op, b) && InMaintenance(a, r) && !InMaintenance(b, r)
    ensures Finishable(a, r) && b == Finished(a, r)
  {
    if op.FinishMaintenance? {
      FinishEndsMaintenance(a, op, b, r);
    } else {
      OthersKeepMaintenance(a, op, b, r);
      assert false;
    }
  }

  lemma FinishEndsMaintenance(a: Backend, op: Operation, b: Backend, r: OrgRealm)
    requires op.FinishMaintenance? && Step(a, op, b) && InMaintenance(a, r) && !InMaintenance(b, r)
    ensures Finishable(a, r) && b == Finished(a, r)
  {
    assert b == AfterFinish(a, op.r, op.author, op.revision);
    if FinishError(a, op.r, op.author, op.revision).None? && Finishable(a, op.r) {
      FinishedElsewhere(a, op.r, Finished(a, op.r).vlobs, r);
    }
  }

  lemma FinishedElsewhere(a: Backend, q: OrgRealm, vlobs: AllVlobs, r: OrgRealm)
    requires q in a.realms && InMaintenance(a, r) && !InMaintenance(FinishedWith(a, q, vlobs), r)
    ensures q == r
  {
  }

  lemma OthersKeepMaintenance(a: Backend, op: Operation, b: Backend, r: OrgRealm)
    requires Step(a, op, b) && InMaintenance(a, r) && !op.FinishMaintenance?
    ensures InMaintenance(b, r)
  {
  }

  lemma FinishedRealm(a: Backend, r: OrgRealm, s: State)
    requires RealmFits(a, r) && Finishable(a, r) && s == Running(a, r).value
    ensures RealmVlobs(Finished(a, r).vlobs, r) == Reencrypted(s)
  {
    var before := RealmVlobs(a.vlobs, r);
    assert Reencrypting(true, Some(s), r.realm, before);
    ReencryptedKeeps(s, r.realm, before);
    ReplacedAreStored(a.vlobs, r, Reencrypted(s));
    ReplacedRealm(a.vlobs, r, Reencrypted(s));
  }

  lemma ReplacedRealm(vlobs: AllVlobs, r: OrgRealm, news: Vlobs)
    requires news.Keys == RealmVlobs(vlobs, r).Keys
    requires forall id :: id in news ==> news[id].realmId == r.realm
    ensures RealmVlobs(Replaced(vlobs, r.org, news), r) == news
  {
    var after := Replaced(vlobs, r.org, news);
    forall id ensures InRealm(after, r, id) <==> id in news {
      ReplacedMembers(vlobs, r, news, id);
    }
    assert RealmVlobs(after, r).Keys == news.Keys;
  }

  lemma ReplacedMembers(vlobs: AllVlobs, r: OrgRealm, news: Vlobs, id: VlobId)
    requires news.Keys == RealmVlobs(vlobs, r).Keys
    requires forall id :: id in news ==> news[id].realmId == r.realm
    ensures InRealm(Replaced(vlobs, r.org, news), r, id) <==> id in news
  {
    assert id in news <==> InRealm(vlobs, r, id);
    assert id in news ==> OrgVlob(r.org, id) in Replaced(vlobs, r.org, news);
  }

  /** At the end of a maintenance the realm's vlobs are those built from the batches saved since its start. */
  lemma MaintenanceResult(states: seq<Backend>, ops: seq<Operation>, r: OrgRealm, i: nat, j: nat)
    requires IsRun(states, ops) && InMaintenanceFrom(states, r, i, j) && j + 1 < |states|
    requires !InMaintenance(states[j + 1], r)
    ensures Running(states[i], r).Some? && Partition(Running(states[i], r).value)
    ensures var finished := Serve(Running(states[i], r).value, SavesBetween(states, ops, r, i, j));
      Partition(finished) && IsFinished(finished) && RealmVlobs(states[j + 1].vlobs, r) == Reencrypted(finished)
  {
    EveryRunMatchesMaintenance(states, ops, i, r);
    RunServes(states, ops, r, i, j);
    EveryRunIsConsistent(states, ops, j);
    assert RealmFits(states[j], r);
    MaintenanceEnds(states[j], ops[j], states[j + 1], r);
    FinishedRealm(states[j], r, Running(states[j], r).value);
  }

  /**
   A whole reencryption, from the operation that starts it to the one that ends it, with anything in between:
   the realm has the vlobs it had, with their authors and dates, and every version has the first blob that was
   saved for it in the meantime.
   */
  lemma ReencryptionKeepsFirstSaved(states: seq<Backend>, ops: seq<Operation>, r: OrgRealm, i: nat, j: nat)
    requires IsRun(states, ops) && 0 < i && InMaintenanceFrom(states, r, i, j) && j + 1 < |states|
    requires !InMaintenance(states[i - 1], r) && !InMaintenance(states[j + 1], r)
    ensures Running(states[i], r).Some?
    ensures var s := Running(states[i], r).value;
      var saved := Saved(s.original, SavesBetween(states, ops, r, i, j));
      && IsStart(s, r.realm, RealmVlobs(states[i - 1].vlobs, r))
      && RealmVlobs(states[j + 1].vlobs, r).Keys == s.original.Keys
      && forall id :: id in s.original ==> IsReencrypted(s, saved, id, RealmVlobs(states[j + 1].vlobs, r)[id])
  {
    assert Step(states[i - 1], ops[i - 1], states[i - 1 + 1]);
    MaintenanceBegins(states[i - 1], ops[i - 1], states[i], r);
    MaintenanceResult(states, ops, r, i, j);
    FinishedResult(Running(states[i], r).value, SavesBetween(states, ops, r, i, j));
  }

  // ---------- reading at a moment in time ----------

  /** There is one cut at most, so a read at a moment has one answer. */
  lemma CutIsUnique(data: seq<Atom>, t: Timestamp, v: int, w: int)
    requires IsCut(data, t, v) && IsCut(data, t, w)
    ensures v == w
  {
    assert v < |data| ==> data[v].timestamp > t;
    assert w < |data| ==> data[w].timestamp > t;
  }

  /**
   A read at `t` selects the same version later in the run, across updates and reencryptions,
   exactly when the versions added meanwhile are dated after `t`.
   */
  lemma PastIsStable(states: seq<Backend>, ops: seq<Operation>, i: nat, j: nat, v: OrgVlob, t: Timestamp, version: nat)
    requires IsRun(states, ops) && i <= j < |states| && v in states[i].vlobs
    requires IsCut(states[i].vlobs[v].data, t, version)
    ensures v in states[j].vlobs && |states[i].vlobs[v].data| <= |states[j].vlobs[v].data|
    ensures var (before, after) := (states[i].vlobs[v].data, states[j].vlobs[v].data);
      IsCut(after, t, version) <==> forall k :: |before| <= k < |after| ==> after[k].timestamp > t
  {
    VlobGrowsAlongRun(states, ops, i, j, v);
    var (before, after) := (states[i].vlobs[v].data, states[j].vlobs[v].data);
    assert SameUpTo(after, before);
    if forall k :: |before| <= k < |after| ==> after[k].timestamp > t {
      forall k | version <= k < |after| ensures after[k].timestamp > t {
        if k < |before| {
          assert before[k].timestamp > t;
        }
      }
    }
  }

  // ---------- a polling client ----------

  /** The logs seen by a client that polls at these moments of the run. */
  ghost function LogsAt(states: seq<Backend>, moments: seq<nat>, r: OrgRealm): (logs: seq<seq<Row>>)
    requires forall k :: 0 <= k < |moments| ==> moments[k] < |states|
    ensures |logs| == |moments| && forall k :: 0 <= k < |moments| ==> logs[k] == LogOf(states[moments[k]].log, r)
  {
    seq(|moments|, k requires 0 <= k < |moments| => LogOf(states[moments[k]].log, r))
  }

  /** What the stored change index makes of a client that polls at these moments, starting with nothing. */
  ghost function ClientAt(states: seq<Backend>, moments: seq<nat>, r: OrgRealm): Client
    requires forall k :: 0 <= k < |moments| ==> moments[k] < |states|
  {
    if moments == [] then Client(0, map[])
    else
      var c := ChangesOf(states[moments[|moments| - 1]].changes, r);
      PollOnce(ClientAt(states, moments[..|moments| - 1], r), c.changes, c.checkpoint)
  }

  lemma {:induction false} ClientFollowsLogs(states: seq<Backend>, ops: seq<Operation>, moments: seq<nat>, r: OrgRealm)
    requires IsRun(states, ops)
    requires forall k :: 0 <= k < |moments| ==> moments[k] < |states|
    ensures ClientAt(states, moments, r) == PollAll(LogsAt(states, moments, r))
  {
    if moments != [] {
      var init, last := moments[..|moments| - 1], moments[|moments| - 1];
      var logs := LogsAt(states, moments, r);
      ClientFollowsLogs(states, ops, init, r);
      assert logs[..|logs| - 1] == LogsAt(states, init, r);
      IndexOfRun(states, ops, last, r);
    }
  }

  lemma IndexOfRun(states: seq<Backend>, ops: seq<Operation>, i: nat, r: OrgRealm)
    requires IsRun(states, ops) && i < |states|
    ensures var (c, log) := (ChangesOf(states[i].changes, r), LogOf(states[i].log, r));
      c.changes == IndexOf(log) && c.checkpoint == |log|
  {
    EveryRunIsConsistent(states, ops, i);
    assert RealmFits(states[i], r);
  }

  /**
   After its last poll a client holds the current version of every vlob of the realm, whatever happened in between.
   */
  lemma ClientHoldsCurrentVersions(states: seq<Backend>, ops: seq<Operation>, moments: seq<nat>, r: OrgRealm)
    requires IsRun(states, ops) && moments != []
    requires forall k :: 0 <= k < |moments| ==> moments[k] < |states|
    requires forall k, l :: 0 <= k < l < |moments| ==> moments[k] <= moments[l]
    ensures var b := states[moments[|moments| - 1]];
      ClientAt(states, moments, r) == Client(|LogOf(b.log, r)|, CurrentVersions(RealmVlobs(b.vlobs, r)))
  {
    var logs := LogsAt(states, moments, r);
    ClientFollowsLogs(states, ops, moments, r);
    forall k | 0 <= k < |logs| - 1 ensures logs[k] <= logs[k + 1] {
      LogGrowsAlongRun(states, ops, moments[k], moments[k + 1], r);
      assert LogGrows(states[moments[k]], states[moments[k + 1]], r);
    }
    PollingClientIsUpToDate(logs);
    var last := moments[|moments| - 1];
    EveryRunIsConsistent(states, ops, last);
    assert RealmFits(states[last], r);
  }
}
