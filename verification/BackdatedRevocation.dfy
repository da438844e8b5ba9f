/**
 A history of accepted requests after which an answer is refused: an administrator revokes a user with a
 certificate dated before one of that user's devices.  Dates need only be close to the server's clock, not
 in order.
 */
module BackdatedRevocation {
  import opened Common
  import opened Certificates
  import opened Trustchain
  import opened UserStore
  import opened UserComponent
  import opened TrustchainExtraction
  import opened TrustchainLoading
  import opened TrustchainEndToEnd
  import opened UserRuns

  const ROOT_KEY: VerifyKey := [0]
  const ALICE_KEY: VerifyKey := [1]
  const BOB_KEY: VerifyKey := [2]

  const ALICE := DeviceId("alice", "desk")
  const BOB := DeviceId("bob", "desk")
  const BOB_PHONE := DeviceId("bob", "phone")

  // A certificate names the key that signed it, and then a serial number.
  const ALICE_USER: Bytes := [0, 1]
  const ALICE_DEVICE: Bytes := [0, 2]
  const BOB_USER: Bytes := [1, 3]
  const BOB_DEVICE: Bytes := [1, 4]
  const PHONE: Bytes := [2, 5]
  const REVOCATION: Bytes := [1, 6]

  function Verifies(key: VerifyKey, signed: Bytes): bool { |signed| > 0 && key == signed[..1] }

  function ParseUser(signed: Bytes): Option<UserContent> {
    if signed == ALICE_USER then Some(UserContent(None, 0, "alice", None, [], Admin))
    else if signed == BOB_USER then Some(UserContent(Some(ALICE), 10, "bob", None, [], Standard))
    else None
  }

  function ParseDevice(signed: Bytes): Option<DeviceContent> {
    if signed == ALICE_DEVICE then Some(DeviceContent(None, 0, ALICE, None, ALICE_KEY))
    else if signed == BOB_DEVICE then Some(DeviceContent(Some(ALICE), 10, BOB, None, BOB_KEY))
    else if signed == PHONE then Some(DeviceContent(Some(BOB), 30, BOB_PHONE, None, [3]))
    else None
  }

  function ParseRevoked(signed: Bytes): Option<RevokedContent> {
    if signed == REVOCATION then Some(RevokedContent(Some(ALICE), 20, "bob")) else None
  }

  function SmallCrypto(): Crypto { Crypto(Verifies, ParseDevice, ParseUser, ParseRevoked) }

  const BOOTSTRAP := BootstrapOrganization(BootstrapMsg(ROOT_KEY, ALICE_USER, ALICE_DEVICE, None, None), true, 0)
  const ADD_BOB :=
    CreateUser(ClientContext(ALICE, Admin, ALICE_KEY), UserCreateMsg(BOB_USER, BOB_DEVICE, BOB_USER, BOB_DEVICE), 10)
  const ADD_PHONE := CreateDevice(ClientContext(BOB, Standard, BOB_KEY), PHONE, None, 30)
  const REVOKE_BOB := RevokeUser(ClientContext(ALICE, Admin, ALICE_KEY), REVOCATION, 40)

  function AliceUser(): User { UserOf(ParseUser(ALICE_USER).value, ALICE_USER, ALICE_USER) }

  function AliceDevice(): Device { DeviceOf(ParseDevice(ALICE_DEVICE).value, ALICE_DEVICE, ALICE_DEVICE) }

  function BobUser(): User { UserOf(ParseUser(BOB_USER).value, BOB_USER, BOB_USER) }

  function BobDevice(): Device { DeviceOf(ParseDevice(BOB_DEVICE).value, BOB_DEVICE, BOB_DEVICE) }

  function Phone(): Device { DeviceOf(ParseDevice(PHONE).value, PHONE, PHONE) }

  function Store1(): Store { WithUser(EMPTY_STORE.(root := Some(ROOT_KEY)), AliceUser(), AliceDevice()) }

  function Store2(): Store { WithUser(Store1(), BobUser(), BobDevice()) }

  function Store3(): Store { WithDevice(Store2(), Phone()) }

  function Store4(): Store { WithRevocation(Store3(), "bob", 20, REVOCATION, ALICE) }

  lemma BootstrapIsServed()
    ensures Served(SmallCrypto(), EMPTY_STORE, BOOTSTRAP, Store1())
  {
  }

  lemma AddBobIsServed()
    ensures Served(SmallCrypto(), Store1(), ADD_BOB, Store2())
  {
  }

  lemma AddPhoneIsServed()
    ensures Served(SmallCrypto(), Store2(), ADD_PHONE, Store3())
  {
  }

  lemma RevokeBobIsServed()
    ensures Served(SmallCrypto(), Store3(), REVOKE_BOB, Store4())
  {
  }

  function Stores(): seq<Store> { [EMPTY_STORE, Store1(), Store2(), Store3(), Store4()] }

  function Requests(): seq<Request> { [BOOTSTRAP, ADD_BOB, ADD_PHONE, REVOKE_BOB] }

  lemma HistoryIsServed()
    ensures IsHistory(SmallCrypto(), Stores(), Requests())
  {
    BootstrapIsServed();
    AddBobIsServed();
    AddPhoneIsServed();
    RevokeBobIsServed();
  }

  /** Bob's phone is signed by bob's desk and dated after bob's revocation. */
  lemma PhoneIsPosterior(closure: set<DeviceId>)
    ensures !NothingAfterRevocation(Store4(), AnswerDevices(Store4(), "bob", closure), AnswerUsers("bob", closure))
  {
    assert Store4().deviceOrder[2] == BOB_PHONE;
    assert BOB_PHONE in DevicesOfUser(Store4().deviceOrder, "bob");
    assert !Timely(Store4(), Store4().devices[BOB_PHONE].deviceCertifier, Store4().devices[BOB_PHONE].createdOn);
  }

  /** The history is accepted, and a fresh client refuses every answer about bob that it leads to. */
  lemma AcceptedHistoryIsRefused(closure: set<DeviceId>, a: Answer, redacted: bool, now: Timestamp, validity: int)
    requires Linked(Store4()) && IsAnswer(Store4(), "bob", redacted, closure, a)
    ensures IsHistory(SmallCrypto(), Stores(), Requests())
    ensures var supply := Supply(
        SmallCrypto(), ROOT_KEY, validity, EMPTY_CACHES, SuppliedUsers(a), SuppliedRevoked(a), SuppliedDevices(a), now);
      supply.Some? && Fits(supply.value) && LoadError(supply.value).Some? &&
        LoadError(supply.value).value.PosteriorToRevocation?
  {
    HistoryIsServed();
    PhoneIsPosterior(closure);
    EveryReachedAnswerLoads(SmallCrypto(), Stores(), Requests(), 4, "bob", redacted, closure, a, now, validity);
  }

  /** Asking the server about bob after this history, and loading the answer. */
  method LoadBob(redacted: bool, validity: int, now: Timestamp) returns (r: Result<LoadedUser, Error>)
    ensures r.Err? && r.error.PosteriorToRevocation?
  {
    HistoryIsServed();
    EveryReachedStoreFits(SmallCrypto(), Stores(), Requests(), 4);
    ValidStoreIsLinked(SmallCrypto(), Store4());
    var answer: Option<Answer>;
    ghost var closure;
    answer, closure := GetUserWithDevicesAndTrustchain(Store4(), "bob", redacted);
    PhoneIsPosterior(closure);
    ghost var env := LoadingAnAnswer(
      SmallCrypto(), Store4(), "bob", redacted, closure, answer.value, now, validity);
    r := LoadFresh(SmallCrypto(), ROOT_KEY, validity, now, answer.value, "bob", env);
  }
}
