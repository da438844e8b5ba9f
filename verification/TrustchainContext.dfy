/** The client's trustchain object: its three caches and the loading of certificates. */
module TrustchainLoading {
  import opened Common
  import opened Certificates
  import opened Trustchain
  import opened CertificateCollection
  import opened TrustchainProvenance

  datatype TrustchainCertifs = TrustchainCertifs(users: seq<Bytes>, revokedUsers: seq<Bytes>, devices: seq<Bytes>)

  datatype Loaded = Loaded(users: seq<UserContent>, revokedUsers: seq<RevokedContent>, devices: seq<DeviceContent>)

  datatype LoadedUser = LoadedUser(user: UserContent, revokedUser: Option<RevokedContent>, devices: seq<DeviceContent>)

  // ---------- the first failure, in the order the code meets them ----------

  function DevicesError(env: Env, order: seq<DeviceId>): Option<Error>
    requires forall id :: id in order ==> id in env.devices.at
  {
    if order == [] then None
    else if env.devices.at[order[0]].verified then DevicesError(env, order[1..])
    else match VerifyDevice(env, env.devices.at[order[0]].content.deviceId, [])
      case Err(e) => Some(e)
      case Ok(_) => DevicesError(env, order[1..])
  }

  function UsersError(env: Env, order: seq<UserId>): Option<Error>
    requires forall id :: id in order ==> id in env.users.at
  {
    if order == [] then None
    else if env.users.at[order[0]].verified then UsersError(env, order[1..])
    else match VerifyUser(env, env.users.at[order[0]].content, env.users.at[order[0]].certif)
      case Err(e) => Some(e)
      case Ok(_) => UsersError(env, order[1..])
  }

  function RevokedError(env: Env, order: seq<UserId>): Option<Error>
    requires forall id :: id in order ==> id in env.revoked.at
  {
    if order == [] then None
    else if env.revoked.at[order[0]].verified then RevokedError(env, order[1..])
    else match VerifyRevoked(env, env.revoked.at[order[0]].content, env.revoked.at[order[0]].certif)
      case Err(e) => Some(e)
      case Ok(_) => RevokedError(env, order[1..])
  }

  /** Devices are verified first, then users, then revocations; the first failure is raised. */
  ghost function LoadError(env: Env): Option<Error>
    requires Fits(env)
  {
    match DevicesError(env, env.devices.order)
    case Some(e) => Some(e)
    case None =>
      match UsersError(env, env.users.order)
      case Some(e) => Some(e)
      case None => RevokedError(env, env.revoked.order)
  }

  lemma {:induction false} DevicesErrorDecides(env: Env, order: seq<DeviceId>)
    requires Fits(env) && forall id :: id in order ==> id in env.devices.at
    ensures DevicesError(env, order).None? <==>
      forall id :: id in order && !env.devices.at[id].verified ==> HasChain(env, id)
  {
    if order != [] {
      VerifyDeviceDecidesChains(env, order[0]);
      DevicesErrorDecides(env, order[1..]);
      assert order == [order[0]] + order[1..];
    }
  }

  lemma {:induction false} UsersErrorDecides(env: Env, order: seq<UserId>)
    requires Fits(env) && forall id :: id in order ==> id in env.users.at
    ensures UsersError(env, order).None? <==>
      forall id :: id in order && !env.users.at[id].verified ==>
        Endorsed(env, env.users.at[id].certif, UserHead(env.users.at[id].content), env.users.at[id].content.author)
  {
    if order != [] {
      if !env.users.at[order[0]].verified {
        VerifyUserDecides(env, order[0]);
      }
      UsersErrorDecides(env, order[1..]);
      assert order == [order[0]] + order[1..];
    }
  }

  lemma {:induction false} RevokedErrorDecides(env: Env, order: seq<UserId>)
    requires Fits(env) && forall id :: id in order ==> id in env.revoked.at
    ensures RevokedError(env, order).None? <==>
      forall id :: id in order && !env.revoked.at[id].verified ==>
        Endorsed(env, env.revoked.at[id].certif, RevokedHead(env.revoked.at[id].content),
          env.revoked.at[id].content.author)
  {
    if order != [] {
      if !env.revoked.at[order[0]].verified {
        VerifyRevokedDecides(env, order[0]);
      }
      RevokedErrorDecides(env, order[1..]);
      assert order == [order[0]] + order[1..];
    }
  }

  /** A load succeeds exactly when every uncached certificate has its chain to the root key. */
  lemma LoadDecidesAcceptance(env: Env)
    requires Fits(env)
    ensures LoadError(env).None? <==> Accepted(env)
  {
    DevicesErrorDecides(env, env.devices.order);
    UsersErrorDecides(env, env.users.order);
    RevokedErrorDecides(env, env.revoked.order);
  }

  // ---------- results and cache updates ----------

  function Contents<K, C>(states: States<K, C>): (r: seq<C>)
    requires forall k :: k in states.order ==> k in states.at
    ensures |r| == |states.order| && forall i :: 0 <= i < |r| ==> r[i] == states.at[states.order[i]].content
  {
    seq(|states.order|, i requires 0 <= i < |states.order| => states.at[states.order[i]].content)
  }

  /** The cache after a load: every entry that was not served from the cache is stored as of `now`. */
  ghost function Refreshed<K, C>(cache: Cache<K, C>, states: States<K, C>, now: Timestamp): Cache<K, C> {
    cache + map k | k in states.at && !states.at[k].verified :: (now, states.at[k].content)
  }

  method Populate<K(==), C>(cache: Cache<K, C>, states: States<K, C>, key: C -> K, now: Timestamp)
    returns (r: Cache<K, C>)
    requires forall k :: k in states.order <==> k in states.at
    requires forall k :: k in states.at ==> key(states.at[k].content) == k
    ensures r == Refreshed(cache, states, now)
  {
    r := cache;
    for i := 0 to |states.order|
      invariant forall k :: k in r <==> k in cache || (k in states.order[..i] && !states.at[k].verified)
      invariant forall k :: k in r ==>
        r[k] == if k in states.order[..i] && !states.at[k].verified then (now, states.at[k].content) else cache[k]
    {
      var state := states.at[states.order[i]];
      assert states.order[..i + 1] == states.order[..i] + [states.order[i]];
      if !state.verified {
        r := r[key(state.content) := (now, state.content)];
      }
    }
    assert states.order[..|states.order|] == states.order;
  }

  datatype Caches = Caches(users: Cache<UserId, UserContent>, revoked: Cache<UserId, RevokedContent>,
    devices: Cache<DeviceId, DeviceContent>)

  /** The state dictionaries a load works on, or nothing when some certificate does not parse. */
  ghost function Supply(crypto: Crypto, root: VerifyKey, validity: int, caches: Caches,
                        users: seq<Bytes>, revoked: seq<Bytes>, devices: seq<Bytes>, now: Timestamp): Option<Env>
  {
    match Collect(devices, crypto.device, DeviceKey, Serving(caches.devices, validity, now))
    case None => None
    case Some(ds) =>
      match Collect(users, crypto.user, UserKey, Serving(caches.users, validity, now))
      case None => None
      case Some(us) =>
        match Collect(revoked, crypto.revoked, RevokedKey, Serving(caches.revoked, validity, now))
        case None => None
        case Some(rs) => Some(Env(crypto, root, ds, us, rs))
  }

  ghost function CachesAfter(caches: Caches, env: Env, now: Timestamp): Caches {
    Caches(Refreshed(caches.users, env.users, now), Refreshed(caches.revoked, env.revoked, now),
      Refreshed(caches.devices, env.devices, now))
  }

  ghost predicate CachesTrusted(crypto: Crypto, root: VerifyKey, caches: Caches) {
    && (forall k :: k in caches.users ==> caches.users[k].1.userId == k && TrustedUser(crypto, root, caches.users[k].1))
    && (forall k :: k in caches.devices ==>
      caches.devices[k].1.deviceId == k && TrustedDevice(crypto, root, caches.devices[k].1))
    && (forall k :: k in caches.revoked ==>
      caches.revoked[k].1.userId == k && TrustedRevoked(crypto, root, caches.revoked[k].1))
  }

  lemma CollectedFromCache<K(!new), C(!new)>(certifs: seq<Bytes>, parse: Bytes -> Option<C>, key: C -> K,
                                             cache: Cache<K, C>, validity: int, now: Timestamp)
    requires forall k :: k in cache ==> key(cache[k].1) == k
    ensures var r := Collect(certifs, parse, key, Serving(cache, validity, now));
      r.Some? ==>
        && StatesFit(r.value, parse, key)
        && (forall c :: c in certifs ==> parse(c).Some? && key(parse(c).value) in r.value.at)
        && (forall k :: k in r.value.at && r.value.at[k].verified ==> k in cache && r.value.at[k].content == cache[k].1)
  {
    CollectedStates(certifs, parse, key, Serving(cache, validity, now));
  }

  lemma SuppliedEnvFits(crypto: Crypto, root: VerifyKey, validity: int, caches: Caches,
                        users: seq<Bytes>, revoked: seq<Bytes>, devices: seq<Bytes>, now: Timestamp)
    requires CachesTrusted(crypto, root, caches)
    ensures var supply := Supply(crypto, root, validity, caches, users, revoked, devices, now);
      supply.Some? ==>
        && supply.value.crypto == crypto && supply.value.root == root
        && Fits(supply.value) && CacheTrusted(supply.value)
        && (forall c :: c in users ==> crypto.user(c).Some? && UserKey(crypto.user(c).value) in supply.value.users.at)
        && (forall c :: c in revoked ==>
          crypto.revoked(c).Some? && RevokedKey(crypto.revoked(c).value) in supply.value.revoked.at)
  {
    CollectedFromCache(devices, crypto.device, DeviceKey, caches.devices, validity, now);
    CollectedFromCache(users, crypto.user, UserKey, caches.users, validity, now);
    CollectedFromCache(revoked, crypto.revoked, RevokedKey, caches.revoked, validity, now);
  }

  // ---------- the verification loops ----------

  /** Verifying overwrites each content, always with the content already there. */
  method VerifyDeviceStates(env: Env) returns (states: States<DeviceId, DeviceContent>, error: Option<Error>)
    requires Fits(env)
    ensures error == DevicesError(env, env.devices.order)
    ensures error.None? ==> states == env.devices
  {
    states := env.devices;
    for i := 0 to |states.order|
      invariant states == env.devices
      invariant DevicesError(env, env.devices.order) == DevicesError(env, env.devices.order[i..])
    {
      var id := states.order[i];
      assert env.devices.order[i..][1..] == env.devices.order[i + 1..];
      var state := states.at[id];
      if !state.verified {
        VerifyDeviceDecidesChains(env, id);
        match VerifyDevice(env.(devices := states), state.content.deviceId, [])
        case Err(e) => return states, Some(e);
        case Ok(content) => states := states.(at := states.at[id := state.(content := content)]);
        assert states.at == env.devices.at;
      }
    }
    return states, None;
  }

  method VerifyUserStates(env: Env) returns (states: States<UserId, UserContent>, error: Option<Error>)
    requires Fits(env)
    ensures error == UsersError(env, env.users.order)
    ensures error.None? ==> states == env.users
  {
    states := env.users;
    for i := 0 to |states.order|
      invariant states == env.users
      invariant UsersError(env, env.users.order) == UsersError(env, env.users.order[i..])
    {
      var id := states.order[i];
      assert env.users.order[i..][1..] == env.users.order[i + 1..];
      var state := states.at[id];
      if !state.verified {
        VerifyUserDecides(env, id);
        match VerifyUser(env.(users := states), state.content, state.certif)
        case Err(e) => return states, Some(e);
        case Ok(content) => states := states.(at := states.at[id := state.(content := content)]);
        assert states.at == env.users.at;
      }
    }
    return states, None;
  }

  method VerifyRevokedStates(env: Env) returns (states: States<UserId, RevokedContent>, error: Option<Error>)
    requires Fits(env)
    ensures error == RevokedError(env, env.revoked.order)
    ensures error.None? ==> states == env.revoked
  {
    states := env.revoked;
    for i := 0 to |states.order|
      invariant states == env.revoked
      invariant RevokedError(env, env.revoked.order) == RevokedError(env, env.revoked.order[i..])
    {
      var id := states.order[i];
      assert env.revoked.order[i..][1..] == env.revoked.order[i + 1..];
      var state := states.at[id];
      if !state.verified {
        VerifyRevokedDecides(env, id);
        match VerifyRevoked(env.(revoked := states), state.content, state.certif)
        case Err(e) => return states, Some(e);
        case Ok(content) => states := states.(at := states.at[id := state.(content := content)]);
        assert states.at == env.revoked.at;
      }
    }
    return states, None;
  }

  method VerifyAll(env: Env) returns (r: Result<Env, Error>)
    requires Fits(env)
    ensures r == match LoadError(env) case None => Ok(env) case Some(e) => Err(e)
  {
    var deviceStates, deviceError := VerifyDeviceStates(env);
    if deviceError.Some? { return Err(deviceError.value); }
    var userStates, userError := VerifyUserStates(env.(devices := deviceStates));
    if userError.Some? { return Err(userError.value); }
    var revokedStates, revokedError := VerifyRevokedStates(env.(devices := deviceStates, users := userStates));
    if revokedError.Some? { return Err(revokedError.value); }
    return Ok(env.(devices := deviceStates, users := userStates, revoked := revokedStates));
  }

  /** The facts a load relies on and the trust it passes on. */
  lemma LoadKeepsTrust(crypto: Crypto, root: VerifyKey, validity: int, caches: Caches,
                       users: seq<Bytes>, revoked: seq<Bytes>, devices: seq<Bytes>, now: Timestamp, env: Env)
    requires CachesTrusted(crypto, root, caches)
    requires Supply(crypto, root, validity, caches, users, revoked, devices, now) == Some(env)
    ensures Fits(env)
    ensures LoadError(env).None? <==> Accepted(env)
    ensures Accepted(env) ==> AllTrusted(env) && CachesTrusted(crypto, root, CachesAfter(caches, env, now))
  {
    SuppliedEnvFits(crypto, root, validity, caches, users, revoked, devices, now);
    LoadDecidesAcceptance(env);
    if Accepted(env) {
      AcceptedContentsAreTrusted(env);
    }
  }

  function AllLoaded(env: Env): Loaded
    requires Fits(env)
  {
    Loaded(Contents(env.users), Contents(env.revoked), Contents(env.devices))
  }

  /** What a load makes of its state dictionaries: the outcome and the caches after it. */
  ghost predicate LoadedAs(env: Env, r: Result<Loaded, Error>, before: Caches, after: Caches, now: Timestamp)
    requires Fits(env)
  {
    && (r.Ok? <==> Accepted(env))
    && (r.Err? ==> LoadError(env) == Some(r.error) && after == before)
    && (r.Ok? ==>
          && r.value == AllLoaded(env)
          && AllTrusted(env)
          && after == CachesAfter(before, env, now))
  }

  // ---------- selecting the requested user ----------

  function UsersSupplied(trustchain: TrustchainCertifs, userCertif: Bytes): seq<Bytes> {
    [userCertif] + trustchain.users
  }

  function RevokedSupplied(trustchain: TrustchainCertifs, revokedUserCertif: Option<Bytes>): seq<Bytes> {
    match revokedUserCertif
    case None => trustchain.revokedUsers
    case Some(certif) => [certif] + trustchain.revokedUsers
  }

  /** The first device that belongs to somebody else. */
  function FirstStranger(devices: seq<DeviceContent>, userId: UserId): Option<UserId> {
    if devices == [] then None
    else if devices[0].deviceId.userId != userId then Some(devices[0].deviceId.userId)
    else FirstStranger(devices[1..], userId)
  }

  lemma {:induction false} FirstStrangerIs(devices: seq<DeviceContent>, userId: UserId, i: nat)
    requires i < |devices| && devices[i].deviceId.userId != userId
    requires forall k :: 0 <= k < i ==> devices[k].deviceId.userId == userId
    ensures FirstStranger(devices, userId) == Some(devices[i].deviceId.userId)
  {
    if i > 0 {
      FirstStrangerIs(devices[1..], userId, i - 1);
    }
  }

  lemma {:induction false} NoStranger(devices: seq<DeviceContent>, expected: Option<UserId>)
    requires expected.Some? ==> forall k :: 0 <= k < |devices| ==> devices[k].deviceId.userId == expected.value
    ensures expected.Some? ==> FirstStranger(devices, expected.value).None?
  {
    if devices != [] {
      NoStranger(devices[1..], expected);
    }
  }

  /** The first user, the first revocation when one is asked, the first devices: all about the expected user. */
  function Selected(
    loaded: Loaded, revokedAsked: bool, nbDevices: nat, expected: Option<UserId>): Result<LoadedUser, Error>
    requires |loaded.users| > 0 && (revokedAsked ==> |loaded.revokedUsers| > 0)
  {
    var devices := loaded.devices[..if nbDevices <= |loaded.devices| then nbDevices else |loaded.devices|];
    if expected.Some? && loaded.users[0].userId != expected.value then Err(UnexpectedUser(loaded.users[0].userId))
    else if expected.Some? && revokedAsked && loaded.revokedUsers[0].userId != expected.value then
      Err(UnexpectedUser(loaded.revokedUsers[0].userId))
    else if expected.Some? && FirstStranger(devices, expected.value).Some? then
      Err(UnexpectedUser(FirstStranger(devices, expected.value).value))
    else
      Ok(LoadedUser(loaded.users[0], if revokedAsked then Some(loaded.revokedUsers[0]) else None, devices))
  }

  /** The users that the requested contents are about, in the order in which they are compared. */
  ghost function Bearers(loaded: Loaded, revokedAsked: bool, nbDevices: nat): seq<UserId>
    requires |loaded.users| > 0 && (revokedAsked ==> |loaded.revokedUsers| > 0)
  {
    var n := if nbDevices <= |loaded.devices| then nbDevices else |loaded.devices|;
    [loaded.users[0].userId]
    + (if revokedAsked then [loaded.revokedUsers[0].userId] else [])
    + seq(n, i requires 0 <= i < n => loaded.devices[i].deviceId.userId)
  }

  /** Somebody else than the expected user comes first at this position. */
  ghost predicate FirstOther(bearers: seq<UserId>, expected: UserId, i: int) {
    0 <= i < |bearers| && bearers[i] != expected && forall k :: 0 <= k < i ==> bearers[k] == expected
  }

  /**
   A selection succeeds exactly when every requested content is about the expected user, if there is
   one; it names the first that is not, and gives the contents that come first otherwise.
   */
  ghost predicate IsSelection(loaded: Loaded, revokedAsked: bool, nbDevices: nat, expected: Option<UserId>,
                              r: Result<LoadedUser, Error>)
    requires |loaded.users| > 0 && (revokedAsked ==> |loaded.revokedUsers| > 0)
  {
    var bearers := Bearers(loaded, revokedAsked, nbDevices);
    && (r.Ok? <==> (expected.Some? ==> forall i :: 0 <= i < |bearers| ==> bearers[i] == expected.value))
    && (r.Err? ==>
          expected.Some? && exists i :: FirstOther(bearers, expected.value, i) && r.error == UnexpectedUser(bearers[i]))
    && (r.Ok? ==>
          && r.value.user == loaded.users[0]
          && r.value.revokedUser == (if revokedAsked then Some(loaded.revokedUsers[0]) else None)
          && r.value.devices <= loaded.devices
          && |r.value.devices| == |bearers| - (if revokedAsked then 2 else 1))
  }

  /** Whatever was selected is about the expected user. */
  ghost predicate IsAbout(user: LoadedUser, userId: UserId) {
    && user.user.userId == userId
    && (user.revokedUser.Some? ==> user.revokedUser.value.userId == userId)
    && forall i :: 0 <= i < |user.devices| ==> user.devices[i].deviceId.userId == userId
  }

  lemma {:induction false} StrangerIsFirst(devices: seq<DeviceContent>, userId: UserId) returns (i: nat)
    requires FirstStranger(devices, userId).Some?
    ensures i < |devices| && devices[i].deviceId.userId != userId
    ensures FirstStranger(devices, userId).value == devices[i].deviceId.userId
    ensures forall k :: 0 <= k < i ==> devices[k].deviceId.userId == userId
  {
    i := 0;
    if devices[0].deviceId.userId == userId {
      var j := StrangerIsFirst(devices[1..], userId);
      i := j + 1;
    }
  }

  lemma {:induction false} WithoutStranger(devices: seq<DeviceContent>, userId: UserId)
    requires FirstStranger(devices, userId).None?
    ensures forall i :: 0 <= i < |devices| ==> devices[i].deviceId.userId == userId
  {
    if devices != [] {
      WithoutStranger(devices[1..], userId);
    }
  }

  lemma BearersAre(loaded: Loaded, revokedAsked: bool, nbDevices: nat)
    requires |loaded.users| > 0 && (revokedAsked ==> |loaded.revokedUsers| > 0)
    ensures var n := if nbDevices <= |loaded.devices| then nbDevices else |loaded.devices|;
      var (bearers, first) := (Bearers(loaded, revokedAsked, nbDevices), if revokedAsked then 2 else 1);
      && |bearers| == first + n && bearers[0] == loaded.users[0].userId
      && (revokedAsked ==> bearers[1] == loaded.revokedUsers[0].userId)
      && forall i :: 0 <= i < n ==> bearers[first + i] == loaded.devices[..n][i].deviceId.userId
  {
  }

  /** The first bearer that is somebody else is the one that the selection names. */
  lemma RefusedIsFirst(loaded: Loaded, revokedAsked: bool, nbDevices: nat, expected: UserId) returns (i: nat)
    requires |loaded.users| > 0 && (revokedAsked ==> |loaded.revokedUsers| > 0)
    requires Selected(loaded, revokedAsked, nbDevices, Some(expected)).Err?
    ensures var bearers := Bearers(loaded, revokedAsked, nbDevices);
      && FirstOther(bearers, expected, i)
      && Selected(loaded, revokedAsked, nbDevices, Some(expected)).error == UnexpectedUser(bearers[i])
  {
    BearersAre(loaded, revokedAsked, nbDevices);
    var devices := loaded.devices[..if nbDevices <= |loaded.devices| then nbDevices else |loaded.devices|];
    i := 0;
    if loaded.users[0].userId == expected {
      i := 1;
      if !revokedAsked || loaded.revokedUsers[0].userId == expected {
        var k := StrangerIsFirst(devices, expected);
        i := k + if revokedAsked then 2 else 1;
      }
    }
  }

  lemma AcceptedIsExpected(loaded: Loaded, revokedAsked: bool, nbDevices: nat, expected: UserId)
    requires |loaded.users| > 0 && (revokedAsked ==> |loaded.revokedUsers| > 0)
    requires Selected(loaded, revokedAsked, nbDevices, Some(expected)).Ok?
    ensures IsAbout(Selected(loaded, revokedAsked, nbDevices, Some(expected)).value, expected)
    ensures var bearers := Bearers(loaded, revokedAsked, nbDevices);
      forall i :: 0 <= i < |bearers| ==> bearers[i] == expected
  {
    var devices := loaded.devices[..if nbDevices <= |loaded.devices| then nbDevices else |loaded.devices|];
    WithoutStranger(devices, expected);
    BearersAre(loaded, revokedAsked, nbDevices);
    var bearers, first := Bearers(loaded, revokedAsked, nbDevices), if revokedAsked then 2 else 1;
    forall i | 0 <= i < |bearers| ensures bearers[i] == expected {
      if i >= first {
        assert bearers[first + (i - first)] == devices[i - first].deviceId.userId;
      }
    }
  }

  lemma SelectedAreExpected(loaded: Loaded, revokedAsked: bool, nbDevices: nat, expected: Option<UserId>)
    requires |loaded.users| > 0 && (revokedAsked ==> |loaded.revokedUsers| > 0)
    ensures var r := Selected(loaded, revokedAsked, nbDevices, expected);
      && IsSelection(loaded, revokedAsked, nbDevices, expected, r)
      && (r.Ok? && expected.Some? ==> IsAbout(r.value, expected.value))
  {
    var r := Selected(loaded, revokedAsked, nbDevices, expected);
    BearersAre(loaded, revokedAsked, nbDevices);
    if r.Err? {
      var i := RefusedIsFirst(loaded, revokedAsked, nbDevices, expected.value);
    } else if expected.Some? {
      AcceptedIsExpected(loaded, revokedAsked, nbDevices, expected.value);
    }
  }

  method Select(loaded: Loaded, revokedAsked: bool, nbDevices: nat, expected: Option<UserId>)
    returns (r: Result<LoadedUser, Error>)
    requires |loaded.users| > 0 && (revokedAsked ==> |loaded.revokedUsers| > 0)
    ensures r == Selected(loaded, revokedAsked, nbDevices, expected)
    ensures IsSelection(loaded, revokedAsked, nbDevices, expected, r)
    ensures r.Ok? && expected.Some? ==> IsAbout(r.value, expected.value)
  {
    SelectedAreExpected(loaded, revokedAsked, nbDevices, expected);
    var user := loaded.users[0];
    if expected.Some? && user.userId != expected.value {
      return Err(UnexpectedUser(user.userId));
    }
    var revokedUser: Option<RevokedContent> := None;
    if revokedAsked {
      revokedUser := Some(loaded.revokedUsers[0]);
      if expected.Some? && revokedUser.value.userId != expected.value {
        return Err(UnexpectedUser(revokedUser.value.userId));
      }
    }
    var n := if nbDevices <= |loaded.devices| then nbDevices else |loaded.devices|;
    var devices := loaded.devices[..n];
    for i := 0 to n
      invariant expected.Some? ==> forall k :: 0 <= k < i ==> devices[k].deviceId.userId == expected.value
    {
      if expected.Some? && devices[i].deviceId.userId != expected.value {
        FirstStrangerIs(devices, expected.value, i);
        return Err(UnexpectedUser(devices[i].deviceId.userId));
      }
    }
    NoStranger(devices, expected);
    return Ok(LoadedUser(user, revokedUser, devices));
  }

  lemma SuppliedIsNotEmpty(crypto: Crypto, root: VerifyKey, validity: int, caches: Caches,
                           users: seq<Bytes>, revoked: seq<Bytes>, devices: seq<Bytes>, now: Timestamp, env: Env)
    requires CachesTrusted(crypto, root, caches)
    requires Supply(crypto, root, validity, caches, users, revoked, devices, now) == Some(env)
    ensures Fits(env)
    ensures |users| > 0 ==> |env.users.order| > 0
    ensures |revoked| > 0 ==> |env.revoked.order| > 0
  {
    SuppliedEnvFits(crypto, root, validity, caches, users, revoked, devices, now);
    if |users| > 0 { assert users[0] in users; }
    if |revoked| > 0 { assert revoked[0] in revoked; }
  }

  /** In a load, what was verified longer ago than the cache validity is verified again. */
  lemma OnlyYoungContentsAreServed(crypto: Crypto, root: VerifyKey, validity: int, caches: Caches,
                                   users: seq<Bytes>, revoked: seq<Bytes>, devices: seq<Bytes>, now: Timestamp,
                                   env: Env)
    requires CachesTrusted(crypto, root, caches)
    requires Supply(crypto, root, validity, caches, users, revoked, devices, now) == Some(env)
    ensures forall k :: k in env.users.at ==>
      (env.users.at[k].verified <==> k in caches.users && now < caches.users[k].0 + validity * 1_000_000)
    ensures forall k :: k in env.revoked.at ==>
      (env.revoked.at[k].verified <==> k in caches.revoked && now < caches.revoked[k].0 + validity * 1_000_000)
    ensures forall k :: k in env.devices.at ==>
      (env.devices.at[k].verified <==> k in caches.devices && now < caches.devices[k].0 + validity * 1_000_000)
  {
    forall k | k in env.users.at
      ensures env.users.at[k].verified <==> k in caches.users && now < caches.users[k].0 + validity * 1_000_000
    {
      ServedWhileYoung(users, crypto.user, UserKey, caches.users, validity, now, k);
    }
    forall k | k in env.revoked.at
      ensures env.revoked.at[k].verified <==> k in caches.revoked && now < caches.revoked[k].0 + validity * 1_000_000
    {
      ServedWhileYoung(revoked, crypto.revoked, RevokedKey, caches.revoked, validity, now, k);
    }
    forall k | k in env.devices.at
      ensures env.devices.at[k].verified <==> k in caches.devices && now < caches.devices[k].0 + validity * 1_000_000
    {
      ServedWhileYoung(devices, crypto.device, DeviceKey, caches.devices, validity, now, k);
    }
  }

  /** Supplying the same certificates in another order leads to the same verdict. */
  lemma VerdictIgnoresSupplyOrder(crypto: Crypto, root: VerifyKey, validity: int, caches: Caches, now: Timestamp,
                                  users: seq<Bytes>, revoked: seq<Bytes>, devices: seq<Bytes>,
                                  users': seq<Bytes>, revoked': seq<Bytes>, devices': seq<Bytes>)
    requires CachesTrusted(crypto, root, caches)
    requires OneCertificatePerId(users, crypto.user, UserKey) &&
      OneCertificatePerId(revoked, crypto.revoked, RevokedKey)
    requires OneCertificatePerId(devices, crypto.device, DeviceKey)
    requires forall c :: c in users <==> c in users'
    requires forall c :: c in revoked <==> c in revoked'
    requires forall c :: c in devices <==> c in devices'
    ensures var here := Supply(crypto, root, validity, caches, users, revoked, devices, now);
      var there := Supply(crypto, root, validity, caches, users', revoked', devices', now);
      && (here.Some? <==> there.Some?)
      && (here.Some? ==> Fits(here.value) && Fits(there.value) && (Accepted(here.value) <==> Accepted(there.value)))
  {
    SuppliedEnvFits(crypto, root, validity, caches, users, revoked, devices, now);
    SuppliedEnvFits(crypto, root, validity, caches, users', revoked', devices', now);
    CollectIgnoresOrder(users, users', crypto.user, UserKey, Serving(caches.users, validity, now));
    CollectIgnoresOrder(revoked, revoked', crypto.revoked, RevokedKey, Serving(caches.revoked, validity, now));
    CollectIgnoresOrder(devices, devices', crypto.device, DeviceKey, Serving(caches.devices, validity, now));
    var here := Supply(crypto, root, validity, caches, users, revoked, devices, now);
    var there := Supply(crypto, root, validity, caches, users', revoked', devices', now);
    if here.Some? {
      AcceptanceIgnoresOrder(here.value, there.value);
    }
  }

  class TrustchainContext {
    const crypto: Crypto
    const rootVerifyKey: VerifyKey
    const cacheValidity: int
    var usersCache: Cache<UserId, UserContent>
    var devicesCache: Cache<DeviceId, DeviceContent>
    var revokedUsersCache: Cache<UserId, RevokedContent>

    /** Every cache entry is filed under its own identifier and was verified down to the root key. */
    ghost predicate Valid()
      reads this
    {
      CachesTrusted(crypto, rootVerifyKey, Snapshot())
    }

    constructor (crypto: Crypto, rootVerifyKey: VerifyKey, cacheValidity: int)
      ensures Valid() && usersCache == map[] && devicesCache == map[] && revokedUsersCache == map[]
      ensures this.crypto == crypto && this.rootVerifyKey == rootVerifyKey && this.cacheValidity == cacheValidity
    {
      this.crypto, this.rootVerifyKey, this.cacheValidity := crypto, rootVerifyKey, cacheValidity;
      usersCache, devicesCache, revokedUsersCache := map[], map[], map[];
    }

    method InvalidateUserCache(userId: UserId)
      requires Valid()
      modifies this`usersCache
      ensures Valid() && usersCache == old(usersCache) - {userId}
    {
      usersCache := usersCache - {userId};
    }

    ghost function Snapshot(): Caches
      reads this
    {
      Caches.Caches(usersCache, revokedUsersCache, devicesCache)
    }

    method SupplyStates(users: seq<Bytes>, revokedUsers: seq<Bytes>, devices: seq<Bytes>, now: Timestamp)
      returns (r: Option<Env>)
      ensures r == Supply(crypto, rootVerifyKey, cacheValidity, Snapshot(), users, revokedUsers, devices, now)
    {
      var deviceStates := CollectStates(devices, crypto.device, DeviceKey, Serving(devicesCache, cacheValidity, now));
      if deviceStates.None? { return None; }
      var userStates := CollectStates(users, crypto.user, UserKey, Serving(usersCache, cacheValidity, now));
      if userStates.None? { return None; }
      var revokedStates :=
        CollectStates(revokedUsers, crypto.revoked, RevokedKey, Serving(revokedUsersCache, cacheValidity, now));
      if revokedStates.None? { return None; }
      return Some(Env(crypto, rootVerifyKey, deviceStates.value, userStates.value, revokedStates.value));
    }

    method StoreStates(env: Env, now: Timestamp)
      requires Fits(env)
      modifies this
      ensures Snapshot() == CachesAfter(old(Snapshot()), env, now)
    {
      devicesCache := Populate(devicesCache, env.devices, DeviceKey, now);
      usersCache := Populate(usersCache, env.users, UserKey, now);
      revokedUsersCache := Populate(revokedUsersCache, env.revoked, RevokedKey, now);
    }

    /**
     Success means exactly that every certificate parses and every uncached one has its chain to
     the root key; the caches then hold what was verified.  A failure raises the first error met
     and leaves the caches alone.
     */
    method LoadTrustchain(users: seq<Bytes>, revokedUsers: seq<Bytes>, devices: seq<Bytes>, now: Timestamp)
      returns (r: Result<Loaded, Error>)
      requires Valid()
      modifies this
      ensures Valid()
      ensures var supply :=
        Supply(crypto, rootVerifyKey, cacheValidity, old(Snapshot()), users, revokedUsers, devices, now);
        match supply
        case None => r == Err(InvalidCertificate) && Snapshot() == old(Snapshot())
        case Some(env) => Fits(env) && LoadedAs(env, r, old(Snapshot()), Snapshot(), now)
    {
      var supplied := SupplyStates(users, revokedUsers, devices, now);
      if supplied.None? { return Err(InvalidCertificate); }
      LoadKeepsTrust(crypto, rootVerifyKey, cacheValidity, Snapshot(), users, revokedUsers, devices, now,
        supplied.value);
      var verified := VerifyAll(supplied.value);
      if verified.Err? { return Err(verified.error); }
      StoreStates(verified.value, now);
      return Ok(AllLoaded(verified.value));
    }

    /**
     Load one user with its devices on top of its trustchain.  The results are the verified contents
     that come first; one that is not about the expected user is refused, but stays in cache.
     */
    method LoadUserAndDevices(trustchain: TrustchainCertifs, userCertif: Bytes, revokedUserCertif: Option<Bytes>,
                              devicesCertifs: seq<Bytes>, expectedUserId: Option<UserId>, now: Timestamp)
      returns (r: Result<LoadedUser, Error>)
      requires Valid()
      modifies this
      ensures Valid()
      ensures var supply := Supply(crypto, rootVerifyKey, cacheValidity, old(Snapshot()),
            UsersSupplied(trustchain, userCertif), RevokedSupplied(trustchain, revokedUserCertif),
              devicesCertifs + trustchain.devices, now);
        match supply
        case None => r == Err(InvalidCertificate) && Snapshot() == old(Snapshot())
        case Some(env) =>
          && Fits(env)
          && (!Accepted(env) ==> r.Err? && LoadError(env) == Some(r.error) && Snapshot() == old(Snapshot()))
          && (Accepted(env) ==>
                && Snapshot() == CachesAfter(old(Snapshot()), env, now)
                && |env.users.order| > 0 && (revokedUserCertif.Some? ==> |env.revoked.order| > 0)
                && r == Selected(AllLoaded(env), revokedUserCertif.Some?, |devicesCertifs|, expectedUserId)
                && IsSelection(AllLoaded(env), revokedUserCertif.Some?, |devicesCertifs|, expectedUserId, r))
      ensures r.Ok? && expectedUserId.Some? ==> IsAbout(r.value, expectedUserId.value)
    {
      var users := UsersSupplied(trustchain, userCertif);
      var revokedUsers := RevokedSupplied(trustchain, revokedUserCertif);
      ghost var supply := Supply(crypto, rootVerifyKey, cacheValidity, Snapshot(), users, revokedUsers,
        devicesCertifs + trustchain.devices, now);
      if supply.Some? {
        SuppliedIsNotEmpty(crypto, rootVerifyKey, cacheValidity, Snapshot(), users, revokedUsers,
          devicesCertifs + trustchain.devices, now, supply.value);
      }
      var loaded := LoadTrustchain(users, revokedUsers, devicesCertifs + trustchain.devices, now);
      if loaded.Err? { return Err(loaded.error); }
      r := Select(loaded.value, revokedUserCertif.Some?, |devicesCertifs|, expectedUserId);
    }
  }
}
