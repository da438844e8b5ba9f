/**
 Signed certificates.  Cryptography and parsing are parameters: `verifies(k, s)` says
 whether signature `s` checks under key `k`, and the parsers say what its payload holds.
 Both the unsecured load and the verified load parse the same payload, so a certificate
 has one content whoever reads it.
 */
module Certificates {
  import opened Common

  type UserId = string
  type VerifyKey = Bytes
  /** Microseconds. */
  type Timestamp = int

  const SECOND: int := 1_000_000

  datatype DeviceId = DeviceId(userId: UserId, deviceName: string)

  datatype UserProfile = Admin | Standard | Outsider

  datatype DeviceContent = DeviceContent(
    author: Option<DeviceId>, timestamp: Timestamp,
    deviceId: DeviceId, deviceLabel: Option<string>, verifyKey: VerifyKey)

  datatype UserContent = UserContent(
    author: Option<DeviceId>, timestamp: Timestamp,
    userId: UserId, humanHandle: Option<string>, publicKey: Bytes, profile: UserProfile)

  datatype RevokedContent = RevokedContent(
    author: Option<DeviceId>, timestamp: Timestamp, userId: UserId)

  datatype Crypto = Crypto(
    verifies: (VerifyKey, Bytes) -> bool,
    device: Bytes -> Option<DeviceContent>,
    user: Bytes -> Option<UserContent>,
    revoked: Bytes -> Option<RevokedContent>)

  /** What the signature rules look at, whatever the kind of certificate. */
  datatype Head = Head(author: Option<DeviceId>, timestamp: Timestamp, subject: UserId)

  function DeviceHead(c: DeviceContent): Head { Head(c.author, c.timestamp, c.deviceId.userId) }
  function UserHead(c: UserContent): Head { Head(c.author, c.timestamp, c.userId) }
  function RevokedHead(c: RevokedContent): Head { Head(c.author, c.timestamp, c.userId) }

  function DeviceKey(c: DeviceContent): DeviceId { c.deviceId }
  function UserKey(c: UserContent): UserId { c.userId }
  function RevokedKey(c: RevokedContent): UserId { c.userId }

  /** A certificate checked under a key with an expected author: its content, or nothing. */
  function VerifyAndLoad<C>(crypto: Crypto, parse: Bytes -> Option<C>, head: C -> Head,
                            certif: Bytes, key: VerifyKey, expectedAuthor: Option<DeviceId>): Option<C>
  {
    if !crypto.verifies(key, certif) then None
    else match parse(certif)
      case None => None
      case Some(content) => if head(content).author == expectedAuthor then Some(content) else None
  }
}
