/** Roles of a realm: certificates folded in timestamp order, and the owner that is always left. */
module RealmRoles {
  import opened Common
  import opened Certificates

  datatype RealmRole = Owner | Manager | Contributor | Reader

  datatype GrantedRole = GrantedRole(
    certificate: Bytes, realmId: nat, userId: UserId, role: Option<RealmRole>, grantedBy: DeviceId,
    grantedOn: Timestamp)

  type Roles = map<UserId, RealmRole>

  function Grant(roles: Roles, x: GrantedRole): Roles {
    if x.role.None? then roles - {x.userId} else roles[x.userId := x.role.value]
  }

  function Fold(granted: seq<GrantedRole>): Roles {
    if granted == [] then map[] else Grant(Fold(granted[..|granted| - 1]), granted[|granted| - 1])
  }

  /** Stable insertion: after every element that is not dated later. */
  function InsertByDate(sorted: seq<GrantedRole>, x: GrantedRole): seq<GrantedRole> {
    if sorted == [] || sorted[|sorted| - 1].grantedOn <= x.grantedOn then sorted + [x]
    else InsertByDate(sorted[..|sorted| - 1], x) + [sorted[|sorted| - 1]]
  }

  /** The stable sort by timestamp. */
  function SortByDate(granted: seq<GrantedRole>): seq<GrantedRole> {
    if granted == [] then [] else InsertByDate(SortByDate(granted[..|granted| - 1]), granted[|granted| - 1])
  }

  /** The view the access checks use: certificates in timestamp order. */
  function RolesByDate(granted: seq<GrantedRole>): Roles { Fold(SortByDate(granted)) }

  /** The view without sorting: certificates in order of arrival. */
  function RolesByArrival(granted: seq<GrantedRole>): Roles { Fold(granted) }

  method ComputeRoles(sorted: seq<GrantedRole>) returns (roles: Roles)
    ensures roles == Fold(sorted)
  {
    roles := map[];
    for i := 0 to |sorted|
      invariant roles == Fold(sorted[..i])
    {
      assert sorted[..i + 1][..i] == sorted[..i];
      if sorted[i].role.None? {
        roles := roles - {sorted[i].userId};
      } else {
        roles := roles[sorted[i].userId := sorted[i].role.value];
      }
    }
    assert sorted[..|sorted|] == sorted;
  }

  // ---------- which certificate decides ----------

  /** The last certificate about a user. */
  function LastFor(granted: seq<GrantedRole>, user: UserId): Option<GrantedRole> {
    if granted == [] then None
    else if granted[|granted| - 1].userId == user then Some(granted[|granted| - 1])
    else LastFor(granted[..|granted| - 1], user)
  }

  /** The certificate about a user with the latest date; among equal dates, the one that arrived last. */
  ghost predicate IsLatest(granted: seq<GrantedRole>, user: UserId, i: nat) {
    && i < |granted| && granted[i].userId == user
    && forall j :: 0 <= j < |granted| && granted[j].userId == user ==>
         granted[j].grantedOn < granted[i].grantedOn || (granted[j].grantedOn == granted[i].grantedOn && j <= i)
  }

  ghost predicate Mentions(granted: seq<GrantedRole>, user: UserId) {
    exists i :: 0 <= i < |granted| && granted[i].userId == user
  }

  function RoleGiven(x: Option<GrantedRole>): Option<RealmRole> {
    if x.Some? then x.value.role else None
  }

  function RoleIn(roles: Roles, user: UserId): Option<RealmRole> {
    if user in roles then Some(roles[user]) else None
  }

  ghost predicate SortedByDate(s: seq<GrantedRole>) {
    forall i, j :: 0 <= i < j < |s| ==> s[i].grantedOn <= s[j].grantedOn
  }

  lemma {:induction false} FoldIsLast(granted: seq<GrantedRole>, user: UserId)
    ensures RoleIn(Fold(granted), user) == RoleGiven(LastFor(granted, user))
  {
    if granted != [] {
      FoldIsLast(granted[..|granted| - 1], user);
    }
  }

  lemma {:induction false} InsertIsSorted(sorted: seq<GrantedRole>, x: GrantedRole)
    requires SortedByDate(sorted)
    ensures SortedByDate(InsertByDate(sorted, x))
    ensures forall y :: y in InsertByDate(sorted, x) ==> y == x || y in sorted
  {
    if sorted != [] && sorted[|sorted| - 1].grantedOn > x.grantedOn {
      InsertIsSorted(sorted[..|sorted| - 1], x);
      var init := InsertByDate(sorted[..|sorted| - 1], x);
      forall i | 0 <= i < |init| ensures init[i].grantedOn <= sorted[|sorted| - 1].grantedOn {
        assert init[i] in init;
      }
    }
  }

  lemma {:induction false} SortIsSorted(granted: seq<GrantedRole>)
    ensures SortedByDate(SortByDate(granted))
  {
    if granted != [] {
      SortIsSorted(granted[..|granted| - 1]);
      InsertIsSorted(SortByDate(granted[..|granted| - 1]), granted[|granted| - 1]);
    }
  }

  lemma {:induction false} LastIsWithin(sorted: seq<GrantedRole>, user: UserId)
    requires LastFor(sorted, user).Some?
    ensures LastFor(sorted, user).value in sorted && LastFor(sorted, user).value.userId == user
  {
    if sorted[|sorted| - 1].userId != user {
      LastIsWithin(sorted[..|sorted| - 1], user);
    }
  }

  /** Inserting a certificate changes the deciding one only for its user, and only if it is not dated before it. */
  lemma {:induction false} LastAfterInsert(sorted: seq<GrantedRole>, x: GrantedRole, user: UserId)
    requires SortedByDate(sorted)
    ensures var last := LastFor(sorted, user);
      LastFor(InsertByDate(sorted, x), user) ==
        if x.userId != user || (last.Some? && last.value.grantedOn > x.grantedOn) then last else Some(x)
  {
    var last := LastFor(sorted, user);
    if sorted == [] || sorted[|sorted| - 1].grantedOn <= x.grantedOn {
      assert (sorted + [x])[..|sorted|] == sorted;
      if last.Some? {
        LastIsWithin(sorted, user);
      }
    } else {
      var init, end := sorted[..|sorted| - 1], sorted[|sorted| - 1];
      assert (InsertByDate(init, x) + [end])[..|InsertByDate(init, x)|] == InsertByDate(init, x);
      LastAfterInsert(init, x, user);
    }
  }

  /** Certificate `i` decides the role of the user, or none does. */
  ghost predicate IsDeciding(granted: seq<GrantedRole>, user: UserId, i: nat, last: Option<GrantedRole>) {
    if Mentions(granted, user) then IsLatest(granted, user, i) && last == Some(granted[i]) else last.None?
  }

  lemma DecidingAfterAppend(granted: seq<GrantedRole>, x: GrantedRole, user: UserId, i: nat, last: Option<GrantedRole>)
    returns (j: nat)
    requires IsDeciding(granted, user, i, last)
    ensures IsDeciding(granted + [x], user, j,
      if x.userId != user || (last.Some? && last.value.grantedOn > x.grantedOn) then last else Some(x))
  {
    var longer := granted + [x];
    assert forall k :: 0 <= k < |granted| ==> longer[k] == granted[k];
    assert longer[|granted|] == x;
    j := if x.userId != user || (last.Some? && last.value.grantedOn > x.grantedOn) then i else |granted|;
    assert Mentions(longer, user) <==> Mentions(granted, user) || x.userId == user;
  }

  /** In the sorted certificates the last one about a user is the latest one. */
  lemma {:induction false} LastOfSortIsLatest(granted: seq<GrantedRole>, user: UserId) returns (i: nat)
    ensures IsDeciding(granted, user, i, LastFor(SortByDate(granted), user))
  {
    i := 0;
    if granted != [] {
      var init, end := granted[..|granted| - 1], granted[|granted| - 1];
      i := LastOfSortIsLatest(init, user);
      SortIsSorted(init);
      LastAfterInsert(SortByDate(init), end, user);
      i := DecidingAfterAppend(init, end, user, i, LastFor(SortByDate(init), user));
      assert granted == init + [end];
    }
  }

  /** A user's role is the one of its latest certificate, whatever order the certificates arrived in. */
  lemma RoleIsLatestGranted(granted: seq<GrantedRole>, user: UserId, i: nat)
    requires IsLatest(granted, user, i)
    ensures RoleIn(RolesByDate(granted), user) == granted[i].role
  {
    FoldIsLast(SortByDate(granted), user);
    var _ := LastOfSortIsLatest(granted, user);
  }

  lemma UnmentionedHasNoRole(granted: seq<GrantedRole>, user: UserId)
    requires !Mentions(granted, user)
    ensures user !in RolesByDate(granted)
  {
    FoldIsLast(SortByDate(granted), user);
    var _ := LastOfSortIsLatest(granted, user);
  }

  /** A new certificate, whatever its date, leaves every other user's role alone. */
  lemma OthersKeepTheirRole(granted: seq<GrantedRole>, x: GrantedRole, user: UserId)
    requires user != x.userId
    ensures RoleIn(RolesByDate(granted + [x]), user) == RoleIn(RolesByDate(granted), user)
  {
    assert (granted + [x])[..|granted|] == granted;
    SortIsSorted(granted);
    LastAfterInsert(SortByDate(granted), x, user);
    FoldIsLast(SortByDate(granted), user);
    FoldIsLast(SortByDate(granted + [x]), user);
  }

  // ---------- there is always an owner ----------

  ghost predicate HasOwner(granted: seq<GrantedRole>) {
    exists user :: RoleIn(RolesByDate(granted), user) == Some(Owner)
  }

  predicate OwnerOrManager(role: Option<RealmRole>) { role == Some(Owner) || role == Some(Manager) }

  /** The role check of a role update: only owners touch owners and managers. */
  predicate MayGrant(granted: seq<GrantedRole>, x: GrantedRole) {
    var existing := RoleIn(RolesByDate(granted), x.userId);
    var author := RoleIn(RolesByDate(granted), x.grantedBy.userId);
    if OwnerOrManager(existing) || OwnerOrManager(x.role) then author == Some(Owner) else OwnerOrManager(author)
  }

  lemma FirstGrantHasOwner(x: GrantedRole)
    requires x.role == Some(Owner)
    ensures HasOwner([x])
  {
    assert IsLatest([x], x.userId, 0);
    RoleIsLatestGranted([x], x.userId, 0);
  }

  /** An accepted update never removes the last owner, even when it is dated in the past or the future. */
  lemma UpdateKeepsOwner(granted: seq<GrantedRole>, x: GrantedRole)
    requires HasOwner(granted) && x.grantedBy.userId != x.userId && MayGrant(granted, x)
    ensures HasOwner(granted + [x])
  {
    var owner :| RoleIn(RolesByDate(granted), owner) == Some(Owner);
    if owner == x.userId {
      owner := x.grantedBy.userId;
    }
    OthersKeepTheirRole(granted, x, owner);
  }

  /** The certificates of a realm after its creation and any accepted updates. */
  ghost predicate Accepted(granted: seq<GrantedRole>) {
    && granted != []
    && granted[0].role == Some(Owner) && granted[0].grantedBy.userId == granted[0].userId
    && forall i :: 1 <= i < |granted| ==> StepAccepted(granted, i)
  }

  ghost predicate StepAccepted(granted: seq<GrantedRole>, i: nat)
    requires i < |granted|
  {
    && granted[i].grantedBy.userId != granted[i].userId
    && MayGrant(granted[..i], granted[i])
    && RoleIn(RolesByDate(granted[..i]), granted[i].userId) != granted[i].role
  }

  lemma {:induction false} AcceptedHasOwner(granted: seq<GrantedRole>)
    requires Accepted(granted)
    ensures HasOwner(granted)
  {
    AcceptedUpToHasOwner(granted, |granted|);
    assert granted[..|granted|] == granted;
  }

  lemma {:induction false} AcceptedUpToHasOwner(granted: seq<GrantedRole>, n: nat)
    requires Accepted(granted) && 1 <= n <= |granted|
    ensures HasOwner(granted[..n])
  {
    if n == 1 {
      assert granted[..1] == [granted[0]];
      FirstGrantHasOwner(granted[0]);
    } else {
      AcceptedUpToHasOwner(granted, n - 1);
      assert StepAccepted(granted, n - 1);
      UpdateKeepsOwner(granted[..n - 1], granted[n - 1]);
      assert granted[..n - 1] + [granted[n - 1]] == granted[..n];
    }
  }

  // ---------- the two views ----------

  /**
   The views agree exactly when, for every user, the last certificate to arrive gives the same role as the latest
   one.
   */
  lemma ViewsAgree(granted: seq<GrantedRole>)
    ensures RolesByDate(granted) == RolesByArrival(granted) <==>
      forall user, i: nat :: IsLatest(granted, user, i) ==> RoleGiven(LastFor(granted, user)) == granted[i].role
  {
    var a, b := RolesByDate(granted), RolesByArrival(granted);
    forall user ensures RoleIn(b, user) == RoleGiven(LastFor(granted, user)) {
      FoldIsLast(granted, user);
    }
    forall user, i: nat | IsLatest(granted, user, i) ensures RoleIn(a, user) == granted[i].role {
      RoleIsLatestGranted(granted, user, i);
    }
    if forall user, i: nat :: IsLatest(granted, user, i) ==> RoleGiven(LastFor(granted, user)) == granted[i].role {
      forall user ensures RoleIn(a, user) == RoleIn(b, user) {
        if Mentions(granted, user) {
          var i := LastOfSortIsLatest(granted, user);
          assert IsLatest(granted, user, i);
        } else {
          UnmentionedHasNoRole(granted, user);
          NeverLast(granted, user);
        }
      }
      SameRoles(a, b);
    }
  }

  lemma SameRoles(a: Roles, b: Roles)
    requires forall user :: RoleIn(a, user) == RoleIn(b, user)
    ensures a == b
  {
    assert forall user :: user in a <==> RoleIn(a, user).Some?;
    assert forall user :: user in b <==> RoleIn(b, user).Some?;
    forall user | user in a ensures user in b && a[user] == b[user] {
      assert RoleIn(a, user) == RoleIn(b, user);
    }
    forall user | user in b ensures user in a {
      assert RoleIn(a, user) == RoleIn(b, user);
    }
  }

  lemma {:induction false} NeverLast(granted: seq<GrantedRole>, user: UserId)
    requires !Mentions(granted, user)
    ensures LastFor(granted, user).None?
  {
    if granted != [] {
      assert granted[|granted| - 1].userId != user;
      assert forall j :: 0 <= j < |granted| - 1 ==> granted[..|granted| - 1][j] == granted[j];
      NeverLast(granted[..|granted| - 1], user);
    }
  }

  /** Certificates that arrive in order of their dates are sorted already. */
  lemma {:induction false} ArrivalInOrderIsSorted(granted: seq<GrantedRole>)
    requires SortedByDate(granted)
    ensures SortByDate(granted) == granted && RolesByDate(granted) == RolesByArrival(granted)
  {
    if granted != [] {
      var init, end := granted[..|granted| - 1], granted[|granted| - 1];
      ArrivalInOrderIsSorted(init);
      assert init + [end] == granted;
    }
  }

  const ALICE := DeviceId("alice", "dev")
  const ALICE_OWNER := GrantedRole([], 0, "alice", Some(Owner), ALICE, 1)
  const BOB_READER := GrantedRole([], 0, "bob", Some(Reader), ALICE, 10)
  const BOB_REMOVED := GrantedRole([], 0, "bob", None, ALICE, 5)

  /** A realm of alice's where bob is granted a role, and then removed with a certificate dated before the grant. */
  function BackdatedRemoval(): seq<GrantedRole> { [ALICE_OWNER, BOB_READER, BOB_REMOVED] }

  lemma RolesBeforeRemoval()
    ensures RoleIn(RolesByDate([ALICE_OWNER]), "alice") == Some(Owner)
    ensures RoleIn(RolesByDate([ALICE_OWNER]), "bob") == None
    ensures RoleIn(RolesByDate([ALICE_OWNER, BOB_READER]), "alice") == Some(Owner)
    ensures RoleIn(RolesByDate([ALICE_OWNER, BOB_READER]), "bob") == Some(Reader)
  {
    RoleIsLatestGranted([ALICE_OWNER], "alice", 0);
    UnmentionedHasNoRole([ALICE_OWNER], "bob");
    RoleIsLatestGranted([ALICE_OWNER, BOB_READER], "alice", 0);
    RoleIsLatestGranted([ALICE_OWNER, BOB_READER], "bob", 1);
  }

  lemma BackdatedRemovalIsAccepted()
    ensures Accepted(BackdatedRemoval())
  {
    var granted := BackdatedRemoval();
    RolesBeforeRemoval();
    assert granted[..1] == [ALICE_OWNER] && granted[..2] == [ALICE_OWNER, BOB_READER];
    assert StepAccepted(granted, 1);
    assert StepAccepted(granted, 2);
  }

  /** In a realm that accepted updates lead to, the views can differ: by date bob is a reader, by arrival he is gone. */
  lemma ViewsCanDiffer()
    ensures Accepted(BackdatedRemoval())
    ensures RoleIn(RolesByDate(BackdatedRemoval()), "bob") == Some(Reader)
    ensures RoleIn(RolesByArrival(BackdatedRemoval()), "bob") == None
  {
    BackdatedRemovalIsAccepted();
    assert IsLatest(BackdatedRemoval(), "bob", 1);
    RoleIsLatestGranted(BackdatedRemoval(), "bob", 1);
    FoldIsLast(BackdatedRemoval(), "bob");
  }
}
