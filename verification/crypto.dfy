/** The cryptographic objects the manager holds, as opaque values. Key
    generation and the group ratchet's arithmetic belong to the cryptographic
    library; what the manager relies on is only their shape: an account has a
    fixed identity key pair, and a group session has a stable session id and a
    message index that encryption advances by one. */
module Crypto {
  import opened Hex

  /** Public keys are 32 bytes (Ed25519 and Curve25519 alike). */
  const KeyLength: nat := 32

  type PublicKey = k: seq<byte> | |k| == KeyLength witness seq(32, _ => 0)

  datatype IdentityKeys = IdentityKeys(ed25519: PublicKey, curve25519: PublicKey)

  /** An Olm account. Only its public identity keys are visible to the
      manager; the private halves never leave the library. */
  datatype Account = Account(identityKeys: IdentityKeys)

  /** What `GroupSession::new` draws at random: the session's id (as the
      bytes handed to the hex encoder) and its initial ratchet secret. */
  datatype SessionSeed = SessionSeed(sessionId: seq<byte>, sessionKey: seq<byte>)

  /** An outbound Megolm session. The ratchet state after `messageIndex`
      steps is determined by the initial secret and the index, so the pair
      stands for the whole ratchet. */
  datatype GroupSession = GroupSession(sessionId: seq<byte>, sessionKey: seq<byte>, messageIndex: nat)

  /** `GroupSession::new`: a session that has sent nothing yet. */
  function NewGroupSession(seed: SessionSeed): GroupSession {
    GroupSession(seed.sessionId, seed.sessionKey, 0)
  }

  /** The ciphertext bytes the library produces for one plaintext under one
      ratchet state. It is a parameter of every operation that encrypts. */
  type Sealer = (GroupSession, string) -> seq<byte>

  /** `session.encrypt(content)`: the ciphertext for the current ratchet
      state, and the session one step further on. */
  function Encrypt(session: GroupSession, plaintext: string, seal: Sealer): (r: (seq<byte>, GroupSession))
    ensures r.1.sessionId == session.sessionId && r.1.sessionKey == session.sessionKey
    ensures r.1.messageIndex == session.messageIndex + 1
    ensures r.0 == seal(session, plaintext)
  {
    (seal(session, plaintext), session.(messageIndex := session.messageIndex + 1))
  }
}
