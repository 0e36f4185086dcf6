/** `EncryptionManager`: one device identity and its table of outbound group
    sessions, one per room. Every operation is a pure transition from the
    manager it is called on to the result it returns and the manager it
    leaves. Calls into the cryptographic library are parameters: the freshly
    generated account, the freshly drawn session seed, and the sealer that
    produces ciphertext. */
module Manager {
  import opened Results
  import opened Hex
  import opened Crypto
  import opened Types

  /** The algorithm tag every envelope carries. */
  const MegolmAlgorithm: string := "m.megolm.v1.aes-sha2"

  datatype EncryptionManager = EncryptionManager(
    olmAccount: Account,
    outboundSessions: map<string, GroupSession>,
    deviceKeys: DeviceKeys)

  /** The stored device keys are the hex of the account's identity keys.
      Construction establishes this and no operation breaks it. */
  predicate Valid(m: EncryptionManager) {
    && m.deviceKeys.ed25519Key == Encode(m.olmAccount.identityKeys.ed25519)
    && m.deviceKeys.curve25519Key == Encode(m.olmAccount.identityKeys.curve25519)
  }

  /** A published key: 64 lowercase hex characters. */
  predicate WellFormedKey(key: string) {
    |key| == 2 * KeyLength && IsLowerHex(key)
  }

  /** In a valid manager, each stored key reads back as the account's key. */
  lemma ValidKeysDecode(m: EncryptionManager)
    ensures Valid(m) ==> Decode(m.deviceKeys.ed25519Key) == Some(m.olmAccount.identityKeys.ed25519)
    ensures Valid(m) ==> Decode(m.deviceKeys.curve25519Key) == Some(m.olmAccount.identityKeys.curve25519)
    ensures Valid(m) ==> WellFormedKey(m.deviceKeys.ed25519Key) && WellFormedKey(m.deviceKeys.curve25519Key)
  {
    DecodeEncode(m.olmAccount.identityKeys.ed25519);
    DecodeEncode(m.olmAccount.identityKeys.curve25519);
  }

  /** `EncryptionManager::new`: a manager for the given account with the
      caller's user and device ids and no outbound sessions. */
  function New(userId: string, deviceId: string, account: Account): (m: EncryptionManager)
    ensures Valid(m)
    ensures m.olmAccount == account
    ensures m.outboundSessions == map[]
    ensures m.deviceKeys.userId == userId && m.deviceKeys.deviceId == deviceId
    ensures Decode(m.deviceKeys.ed25519Key) == Some(account.identityKeys.ed25519)
    ensures Decode(m.deviceKeys.curve25519Key) == Some(account.identityKeys.curve25519)
    ensures WellFormedKey(m.deviceKeys.ed25519Key) && WellFormedKey(m.deviceKeys.curve25519Key)
  {
    var keys := account.identityKeys;
    var m := EncryptionManager(account, map[], DeviceKeys(userId, deviceId, Encode(keys.ed25519), Encode(keys.curve25519)));
    ValidKeysDecode(m);
    m
  }

  /** `get_device_keys`: a copy of the stored identity, which in a valid
      manager is the account's key pair in hex. */
  function GetDeviceKeys(m: EncryptionManager): (k: DeviceKeys)
    ensures k == m.deviceKeys
    ensures Valid(m) ==> Decode(k.ed25519Key) == Some(m.olmAccount.identityKeys.ed25519)
    ensures Valid(m) ==> Decode(k.curve25519Key) == Some(m.olmAccount.identityKeys.curve25519)
    ensures Valid(m) ==> WellFormedKey(k.ed25519Key) && WellFormedKey(k.curve25519Key)
  {
    ValidKeysDecode(m);
    m.deviceKeys
  }

  /** `create_outbound_session`: always succeeds, and installs a session that
      has sent nothing under `roomId`, replacing any earlier one. Nothing
      else changes. */
  function CreateOutboundSession(m: EncryptionManager, roomId: string, seed: SessionSeed): (r: Step<EncryptionManager, ()>)
    ensures r.result.Ok?
    ensures r.state.olmAccount == m.olmAccount && r.state.deviceKeys == m.deviceKeys
    ensures r.state.outboundSessions.Keys == m.outboundSessions.Keys + {roomId}
    ensures r.state.outboundSessions[roomId].sessionId == seed.sessionId
    ensures r.state.outboundSessions[roomId].sessionKey == seed.sessionKey
    ensures r.state.outboundSessions[roomId].messageIndex == 0
    ensures forall room :: room in m.outboundSessions && room != roomId ==>
              r.state.outboundSessions[room] == m.outboundSessions[room]
    ensures Valid(m) ==> Valid(r.state)
  {
    Step(Ok(()), m.(outboundSessions := m.outboundSessions[roomId := NewGroupSession(seed)]))
  }

  /** `encrypt_message`: fails, changing nothing, exactly when `roomId` has
      no outbound session. Otherwise the envelope carries the Megolm tag, the
      sender's Curve25519 key, the hex of the room's session id and the hex of
      the ciphertext for the session's current ratchet state; and that one
      session moves on by one message while every other part of the manager
      stays as it was. */
  function EncryptMessage(m: EncryptionManager, content: string, roomId: string, seal: Sealer): (r: Step<EncryptionManager, EncryptedMessage>)
    ensures r.result.Err? <==> roomId !in m.outboundSessions
    ensures r.result.Err? ==> r.result.error == NoOutboundSession(roomId) && r.state == m
    ensures r.result.Ok? ==> r.result.value.algorithm == MegolmAlgorithm
    ensures r.result.Ok? ==> Decode(r.result.value.senderKey) == Some(m.olmAccount.identityKeys.curve25519)
    ensures r.result.Ok? && Valid(m) ==> r.result.value.senderKey == m.deviceKeys.curve25519Key
    ensures r.result.Ok? ==> Decode(r.result.value.sessionId) == Some(m.outboundSessions[roomId].sessionId)
    ensures r.result.Ok? ==> Decode(r.result.value.ciphertext) == Some(seal(m.outboundSessions[roomId], content))
    ensures r.state.olmAccount == m.olmAccount && r.state.deviceKeys == m.deviceKeys
    ensures r.state.outboundSessions.Keys == m.outboundSessions.Keys
    ensures roomId in m.outboundSessions ==>
              && r.state.outboundSessions[roomId].sessionId == m.outboundSessions[roomId].sessionId
              && r.state.outboundSessions[roomId].sessionKey == m.outboundSessions[roomId].sessionKey
              && r.state.outboundSessions[roomId].messageIndex == m.outboundSessions[roomId].messageIndex + 1
    ensures forall room :: room in m.outboundSessions && room != roomId ==>
              r.state.outboundSessions[room] == m.outboundSessions[room]
    ensures Valid(m) ==> Valid(r.state)
  {
    if roomId !in m.outboundSessions then
      Step(Err(NoOutboundSession(roomId)), m)
    else
      var session := m.outboundSessions[roomId];
      var (ciphertext, advanced) := Crypto.Encrypt(session, content, seal);
      var identityKeys := m.olmAccount.identityKeys;
      DecodeEncode(ciphertext);
      DecodeEncode(identityKeys.curve25519);
      DecodeEncode(advanced.sessionId);
      var envelope := EncryptedMessage(
        MegolmAlgorithm,
        Encode(ciphertext),
        Encode(identityKeys.curve25519),
        Encode(advanced.sessionId));
      Step(Ok(envelope), m.(outboundSessions := m.outboundSessions[roomId := advanced]))
  }

  /** `decrypt_message`: not implemented; it refuses every envelope for
      every room and leaves the manager untouched. */
  function DecryptMessage(m: EncryptionManager, encrypted: EncryptedMessage, roomId: string): (r: Step<EncryptionManager, DecryptionResult>)
    ensures r.result == Err(DecryptionNotImplemented)
    ensures r.state == m
  {
    Step(Err(DecryptionNotImplemented), m)
  }
}
