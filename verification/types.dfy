/** The records that cross the library boundary, and the failures its
    operations report. */
module Types {
  import opened Results

  /** A device's published identity: who owns it and its two public keys,
      each as lowercase hex. */
  datatype DeviceKeys = DeviceKeys(userId: string, deviceId: string, ed25519Key: string, curve25519Key: string)

  /** The envelope an encryption returns; every field is text. */
  datatype EncryptedMessage = EncryptedMessage(algorithm: string, ciphertext: string, senderKey: string, sessionId: string)

  datatype DecryptionResult = DecryptionResult(plaintext: string, senderKey: string)

  /** The failures the library reports. The library reports them as text;
      `Text` gives the exact wording. */
  datatype Error =
    | NotInitialized
    | NoOutboundSession(roomId: string)
    | DecryptionNotImplemented
    | InvalidMessageFormat(detail: string)

  function Text(e: Error): (r: string)
    ensures |r| > 0 && r[0] == Initial(e)
    ensures e.NoOutboundSession? ==> |e.roomId| < |r| && r[|r| - |e.roomId|..] == e.roomId
    ensures e.InvalidMessageFormat? ==> |e.detail| < |r| && r[|r| - |e.detail|..] == e.detail
  {
    match e
    case NotInitialized => "Encryption not initialized"
    case NoOutboundSession(room) => "No outbound session for room " + room
    case DecryptionNotImplemented => "Decryption not yet implemented" + " - requires inbound session management"
    case InvalidMessageFormat(detail) => "Invalid encrypted message format: " + detail
  }

  /** The first letter of each kind's text. */
  function Initial(e: Error): char {
    match e
    case NotInitialized => 'E'
    case NoOutboundSession(_) => 'N'
    case DecryptionNotImplemented => 'D'
    case InvalidMessageFormat(_) => 'I'
  }

  /** Different failures read differently: the four kinds start with
      different letters, and the room id or the parser's detail is the rest
      of the text after a fixed prefix. */
  lemma TextInjective(e1: Error, e2: Error)
    ensures Text(e1) == Text(e2) <==> e1 == e2
  {
  }

  /** One transition: what the call returns and the state it leaves behind. */
  datatype Step<S, T> = Step(result: Result<T, Error>, state: S)
}
