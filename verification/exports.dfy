/** The exported entry points. The process holds at most one manager; each
    entry point is a transition over that optional manager. Every call other
    than initialisation fails with "Encryption not initialized" while no
    manager exists. */
module Exports {
  import opened Results
  import opened Hex
  import opened Crypto
  import opened Types
  import Manager

  /** The process-wide slot: no manager, or exactly one. */
  type State = Option<Manager.EncryptionManager>

  predicate ValidState(s: State) {
    s.Some? ==> Manager.Valid(s.value)
  }

  /** Reads an envelope from its text form, or says why it cannot. The wire
      format is a parameter of the model. */
  type Parser = string -> Result<EncryptedMessage, string>

  /** `init_encryption`: always succeeds, and puts a new manager in the slot
      whatever was there before, so every earlier session is gone. */
  function InitEncryption(s: State, userId: string, deviceId: string, account: Account): (r: Step<State, ()>)
    ensures r.result.Ok?
    ensures r.state.Some? && ValidState(r.state)
    ensures r.state.value.olmAccount == account
    ensures r.state.value.outboundSessions == map[]
    ensures r.state.value.deviceKeys.userId == userId && r.state.value.deviceKeys.deviceId == deviceId
    ensures Manager.WellFormedKey(r.state.value.deviceKeys.ed25519Key)
    ensures Manager.WellFormedKey(r.state.value.deviceKeys.curve25519Key)
  {
    Step(Ok(()), Some(Manager.New(userId, deviceId, account)))
  }

  /** `get_device_keys`: read-only; the stored identity when a manager
      exists. */
  function GetDeviceKeys(s: State): (r: Step<State, DeviceKeys>)
    ensures r.state == s
    ensures s.None? <==> r.result == Err(NotInitialized)
    ensures s.Some? ==> r.result == Ok(s.value.deviceKeys)
  {
    match s
    case None => Step(Err(NotInitialized), s)
    case Some(m) => Step(Ok(Manager.GetDeviceKeys(m)), s)
  }

  /** `create_outbound_session`: fails only when no manager exists;
      otherwise installs a fresh session for `roomId` and leaves every other
      room and the identity as they were. */
  function CreateOutboundSession(s: State, roomId: string, seed: SessionSeed): (r: Step<State, ()>)
    ensures s.None? ==> r.result == Err(NotInitialized) && r.state == None
    ensures s.Some? ==> r.result.Ok? && r.state.Some?
    ensures s.Some? ==>
              && r.state.value.olmAccount == s.value.olmAccount
              && r.state.value.deviceKeys == s.value.deviceKeys
              && r.state.value.outboundSessions.Keys == s.value.outboundSessions.Keys + {roomId}
              && r.state.value.outboundSessions[roomId] == NewGroupSession(seed)
    ensures s.Some? ==> forall room :: room in s.value.outboundSessions && room != roomId ==>
              r.state.value.outboundSessions[room] == s.value.outboundSessions[room]
    ensures ValidState(s) ==> ValidState(r.state)
  {
    match s
    case None => Step(Err(NotInitialized), s)
    case Some(m) =>
      var step := Manager.CreateOutboundSession(m, roomId, seed);
      Step(step.result, Some(step.state))
  }

  /** `encrypt_message`: fails with "Encryption not initialized" when no
      manager exists, and with the missing-session error when `roomId` has
      none; in both cases nothing changes. Otherwise the manager's
      encryption happens in place. */
  function EncryptMessage(s: State, content: string, roomId: string, seal: Sealer): (r: Step<State, EncryptedMessage>)
    ensures s.None? ==> r.result == Err(NotInitialized) && r.state == None
    ensures s.Some? && roomId !in s.value.outboundSessions ==>
              r.result == Err(NoOutboundSession(roomId)) && r.state == s
    ensures s.Some? && roomId in s.value.outboundSessions ==>
              && r.result.Ok?
              && r.result.value.algorithm == Manager.MegolmAlgorithm
              && Decode(r.result.value.sessionId) == Some(s.value.outboundSessions[roomId].sessionId)
              && r.state.Some?
              && r.state.value.outboundSessions.Keys == s.value.outboundSessions.Keys
              && r.state.value.outboundSessions[roomId].sessionId == s.value.outboundSessions[roomId].sessionId
              && r.state.value.outboundSessions[roomId].sessionKey == s.value.outboundSessions[roomId].sessionKey
              && r.state.value.outboundSessions[roomId].messageIndex == s.value.outboundSessions[roomId].messageIndex + 1
    ensures s.Some? && roomId in s.value.outboundSessions ==>
              Decode(r.result.value.ciphertext) == Some(seal(s.value.outboundSessions[roomId], content))
    ensures s.Some? && roomId in s.value.outboundSessions && Manager.Valid(s.value) ==>
              r.result.value.senderKey == s.value.deviceKeys.curve25519Key
    ensures s.Some? ==> r.state.Some? && r.state.value.deviceKeys == s.value.deviceKeys
    ensures s.Some? ==> r.state.value.olmAccount == s.value.olmAccount
    ensures s.Some? ==> forall room :: room in s.value.outboundSessions && room != roomId ==>
              r.state.value.outboundSessions[room] == s.value.outboundSessions[room]
    ensures ValidState(s) ==> ValidState(r.state)
  {
    match s
    case None => Step(Err(NotInitialized), s)
    case Some(m) =>
      var step := Manager.EncryptMessage(m, content, roomId, seal);
      Step(step.result, Some(step.state))
  }

  /** `decrypt_message`: a text that does not parse is refused before the
      slot is looked at; otherwise the call fails with "Encryption not
      initialized" or with the manager's refusal. It never succeeds and never
      changes the state. */
  function DecryptMessage(s: State, encrypted: string, roomId: string, parse: Parser): (r: Step<State, DecryptionResult>)
    ensures r.result.Err? && r.state == s
    ensures parse(encrypted).Err? ==> r.result.error == InvalidMessageFormat(parse(encrypted).error)
    ensures parse(encrypted).Ok? && s.None? ==> r.result.error == NotInitialized
    ensures parse(encrypted).Ok? && s.Some? ==> r.result.error == DecryptionNotImplemented
  {
    match parse(encrypted)
    case Err(detail) => Step(Err(InvalidMessageFormat(detail)), s)
    case Ok(message) =>
      match s
      case None => Step(Err(NotInitialized), s)
      case Some(m) =>
        var step := Manager.DecryptMessage(m, message, roomId);
        Step(step.result, Some(step.state))
  }
}
