/** Sequences of exported calls. A run threads the process-wide state
    through the calls in order, as the lock in the library serialises them,
    and collects each call's result. */
module Lifecycle {
  import opened Results
  import opened Hex
  import opened Crypto
  import opened Types
  import Manager
  import opened Exports

  /** One exported call, with the values the cryptographic library would
      have drawn for it. */
  datatype Call =
    | Init(userId: string, deviceId: string, account: Account)
    | GetKeys
    | CreateSession(roomId: string, seed: SessionSeed)
    | EncryptCall(content: string, roomId: string)
    | DecryptCall(encrypted: string, roomId: string)

  /** What a successful call hands back. */
  datatype Reply =
    | Done
    | Keys(keys: DeviceKeys)
    | Envelope(message: EncryptedMessage)
    | Plaintext(decrypted: DecryptionResult)

  function Lift<T>(r: Result<T, Error>, wrap: T -> Reply): Result<Reply, Error> {
    match r
    case Ok(v) => Ok(wrap(v))
    case Err(e) => Err(e)
  }

  /** Dispatches one call to its exported entry point. */
  function Apply(s: State, c: Call, seal: Sealer, parse: Parser): (r: Step<State, Reply>)
    ensures ValidState(s) ==> ValidState(r.state)
    ensures !c.Init? && s.None? ==> r.state == None && r.result.Err?
  {
    match c
    case Init(u, d, a) =>
      var step := InitEncryption(s, u, d, a);
      Step(Lift(step.result, _ => Done), step.state)
    case GetKeys =>
      var step := GetDeviceKeys(s);
      Step(Lift(step.result, k => Keys(k)), step.state)
    case CreateSession(room, seed) =>
      var step := CreateOutboundSession(s, room, seed);
      Step(Lift(step.result, _ => Done), step.state)
    case EncryptCall(content, room) =>
      var step := EncryptMessage(s, content, room, seal);
      Step(Lift(step.result, e => Envelope(e)), step.state)
    case DecryptCall(text, room) =>
      var step := DecryptMessage(s, text, room, parse);
      Step(Lift(step.result, d => Plaintext(d)), step.state)
  }

  /** The results of the calls, in order, and the state after the last. */
  function Run(s: State, calls: seq<Call>, seal: Sealer, parse: Parser): (r: (seq<Result<Reply, Error>>, State))
    ensures |r.0| == |calls|
    decreases |calls|
  {
    if calls == [] then ([], s)
    else
      var first := Apply(s, calls[0], seal, parse);
      var rest := Run(first.state, calls[1..], seal, parse);
      ([first.result] + rest.0, rest.1)
  }

  predicate NoInit(calls: seq<Call>) {
    forall i :: 0 <= i < |calls| ==> !calls[i].Init?
  }

  /** No call in the run creates a session for `roomId`. */
  predicate NoCreateFor(calls: seq<Call>, roomId: string) {
    forall i :: 0 <= i < |calls| ==> !(calls[i].CreateSession? && calls[i].roomId == roomId)
  }

  /** The rooms the run creates sessions for. */
  function CreatedRooms(calls: seq<Call>): set<string> {
    set i | 0 <= i < |calls| && calls[i].CreateSession? :: calls[i].roomId
  }

  /** How many calls in the run encrypt for `roomId`. */
  function EncryptsFor(calls: seq<Call>, roomId: string): nat {
    if calls == [] then 0
    else (if calls[0].EncryptCall? && calls[0].roomId == roomId then 1 else 0) + EncryptsFor(calls[1..], roomId)
  }

  /** No sequence of calls breaks the agreement between the stored device
      keys and the account. */
  lemma {:induction false} RunPreservesValid(s: State, calls: seq<Call>, seal: Sealer, parse: Parser)
    requires ValidState(s)
    ensures ValidState(Run(s, calls, seal, parse).1)
    decreases |calls|
  {
    if calls != [] {
      RunPreservesValid(Apply(s, calls[0], seal, parse).state, calls[1..], seal, parse);
    }
  }

  /** Before initialisation every call fails and the slot stays empty. */
  lemma {:induction false} UninitialisedRunFails(calls: seq<Call>, seal: Sealer, parse: Parser)
    requires NoInit(calls)
    ensures Run(None, calls, seal, parse).1 == None
    ensures forall i :: 0 <= i < |calls| ==> Run(None, calls, seal, parse).0[i].Err?
    decreases |calls|
  {
    if calls != [] {
      UninitialisedRunFails(calls[1..], seal, parse);
      var r := Run(None, calls, seal, parse);
      var rest := Run(None, calls[1..], seal, parse);
      assert r.0 == [Apply(None, calls[0], seal, parse).result] + rest.0;
      forall i | 0 <= i < |calls|
        ensures r.0[i].Err?
      {
        if i > 0 {
          assert r.0[i] == rest.0[i - 1];
        }
      }
    }
  }

  /** Without a new initialisation the identity never changes, rooms are
      never dropped, and every room in the table was either there at the
      start or was given a session by some call of the run. */
  lemma {:induction false} RunKeepsIdentityAndRooms(m: Manager.EncryptionManager, calls: seq<Call>, seal: Sealer, parse: Parser)
    requires NoInit(calls)
    ensures Run(Some(m), calls, seal, parse).1.Some?
    ensures Run(Some(m), calls, seal, parse).1.value.olmAccount == m.olmAccount
    ensures Run(Some(m), calls, seal, parse).1.value.deviceKeys == m.deviceKeys
    ensures m.outboundSessions.Keys <= Run(Some(m), calls, seal, parse).1.value.outboundSessions.Keys
    ensures Run(Some(m), calls, seal, parse).1.value.outboundSessions.Keys <= m.outboundSessions.Keys + CreatedRooms(calls)
    decreases |calls|
  {
    if calls != [] {
      var next := Apply(Some(m), calls[0], seal, parse).state;
      assert next.Some?;
      assert NoInit(calls[1..]) by {
        forall i | 0 <= i < |calls[1..]| ensures !calls[1..][i].Init? {
          assert calls[1..][i] == calls[i + 1];
        }
      }
      RunKeepsIdentityAndRooms(next.value, calls[1..], seal, parse);
      assert CreatedRooms(calls[1..]) <= CreatedRooms(calls) by {
        forall room | room in CreatedRooms(calls[1..]) ensures room in CreatedRooms(calls) {
          var i :| 0 <= i < |calls[1..]| && calls[1..][i].CreateSession? && calls[1..][i].roomId == room;
          assert calls[i + 1] == calls[1..][i];
        }
      }
      if calls[0].CreateSession? {
        assert calls[0].roomId in CreatedRooms(calls);
      }
    }
  }

  /** Re-initialising discards every earlier session: after `Init` and any
      calls that do not initialise again, the only rooms with sessions are
      those the later calls created. */
  lemma InitDiscardsSessions(s: State, userId: string, deviceId: string, account: Account, calls: seq<Call>, seal: Sealer, parse: Parser)
    requires NoInit(calls)
    ensures Run(s, [Init(userId, deviceId, account)] + calls, seal, parse).1.Some?
    ensures Run(s, [Init(userId, deviceId, account)] + calls, seal, parse).1.value.outboundSessions.Keys <= CreatedRooms(calls)
    ensures Run(s, [Init(userId, deviceId, account)] + calls, seal, parse).1.value.deviceKeys.userId == userId
    ensures Run(s, [Init(userId, deviceId, account)] + calls, seal, parse).1.value.deviceKeys.deviceId == deviceId
  {
    var all := [Init(userId, deviceId, account)] + calls;
    assert all[0] == Init(userId, deviceId, account);
    assert all[1..] == calls;
    var initialised := Apply(s, all[0], seal, parse).state;
    RunKeepsIdentityAndRooms(initialised.value, calls, seal, parse);
  }

  /** While nobody re-initialises or replaces its session, a room keeps the
      same session, every encryption for it succeeds, and its message index
      grows by exactly the number of those encryptions. */
  lemma {:induction false} RunAdvancesCounter(m: Manager.EncryptionManager, roomId: string, calls: seq<Call>, seal: Sealer, parse: Parser)
    requires NoInit(calls) && NoCreateFor(calls, roomId)
    requires roomId in m.outboundSessions
    ensures Run(Some(m), calls, seal, parse).1.Some?
    ensures roomId in Run(Some(m), calls, seal, parse).1.value.outboundSessions
    ensures Run(Some(m), calls, seal, parse).1.value.outboundSessions[roomId].sessionId == m.outboundSessions[roomId].sessionId
    ensures Run(Some(m), calls, seal, parse).1.value.outboundSessions[roomId].messageIndex
            == m.outboundSessions[roomId].messageIndex + EncryptsFor(calls, roomId)
    ensures forall i :: 0 <= i < |calls| && calls[i].EncryptCall? && calls[i].roomId == roomId ==>
              Run(Some(m), calls, seal, parse).0[i].Ok?
    decreases |calls|
  {
    if calls != [] {
      var first := Apply(Some(m), calls[0], seal, parse);
      var next := first.state;
      assert next.Some?;
      assert roomId in next.value.outboundSessions;
      assert NoInit(calls[1..]) && NoCreateFor(calls[1..], roomId) by {
        forall i | 0 <= i < |calls[1..]| ensures calls[1..][i] == calls[i + 1] { }
      }
      RunAdvancesCounter(next.value, roomId, calls[1..], seal, parse);
      var r := Run(Some(m), calls, seal, parse);
      var rest := Run(next, calls[1..], seal, parse);
      assert r.0 == [first.result] + rest.0;
      forall i | 0 <= i < |calls| && calls[i].EncryptCall? && calls[i].roomId == roomId
        ensures r.0[i].Ok?
      {
        if i > 0 {
          assert calls[1..][i - 1] == calls[i];
          assert r.0[i] == rest.0[i - 1];
        }
      }
    }
  }

  /** Initialise as "alice" on "DEV1", create a session for "room1" and
      encrypt "hello": the envelope has the Megolm tag, a 64-character
      lowercase hex sender key equal to the published one, and the hex of the
      new session's id. */
  lemma AliceScenario(s: State, account: Account, seed: SessionSeed, seal: Sealer, parse: Parser)
    ensures var r := Run(s, [Init("alice", "DEV1", account), CreateSession("room1", seed), EncryptCall("hello", "room1"), GetKeys], seal, parse);
            && r.0[0] == Ok(Done) && r.0[1] == Ok(Done)
            && r.0[2].Ok? && r.0[2].value.Envelope? && r.0[3].Ok? && r.0[3].value.Keys?
            && r.0[3].value.keys.userId == "alice" && r.0[3].value.keys.deviceId == "DEV1"
            && r.0[2].value.message.algorithm == "m.megolm.v1.aes-sha2"
            && r.0[2].value.message.senderKey == r.0[3].value.keys.curve25519Key
            && Manager.WellFormedKey(r.0[2].value.message.senderKey)
            && Decode(r.0[2].value.message.sessionId) == Some(seed.sessionId)
            && Decode(r.0[2].value.message.ciphertext) == Some(seal(NewGroupSession(seed), "hello"))
  {
    var calls := [Init("alice", "DEV1", account), CreateSession("room1", seed), EncryptCall("hello", "room1"), GetKeys];
    var a0 := Apply(s, calls[0], seal, parse);
    var a1 := Apply(a0.state, calls[1], seal, parse);
    var a2 := Apply(a1.state, calls[2], seal, parse);
    var a3 := Apply(a2.state, calls[3], seal, parse);
    assert calls[1..] == [calls[1], calls[2], calls[3]];
    assert calls[1..][1..] == [calls[2], calls[3]];
    assert calls[1..][1..][1..] == [calls[3]];
    assert calls[1..][1..][1..][1..] == [];
    var r3 := Run(a3.state, [], seal, parse);
    assert r3.0 == [] && r3.1 == a3.state;
    var r2 := Run(a2.state, [calls[3]], seal, parse);
    assert r2.0 == [a3.result] && r2.1 == a3.state;
    var r1 := Run(a1.state, [calls[2], calls[3]], seal, parse);
    assert r1.0 == [a2.result, a3.result] && r1.1 == a3.state;
    var r0 := Run(a0.state, calls[1..], seal, parse);
    assert r0.0 == [a1.result, a2.result, a3.result] && r0.1 == a3.state;
    assert Run(s, calls, seal, parse).0 == [a0.result, a1.result, a2.result, a3.result];
    assert a2.state.value.deviceKeys == a0.state.value.deviceKeys;
  }
}
