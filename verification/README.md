# FEVERDREAM crypto core: session-state manager

This project is a Dafny model of the encryption-session manager in the
FEVERDREAM Rust core. The process holds at most one `EncryptionManager`.
That manager stores:

- an Olm account, whose identity key pair is fixed;
- the device keys, which are the account's Ed25519 and Curve25519 public keys in lowercase hex;
- a table that maps each room id to its outbound Megolm group session.

The exported calls are `init_encryption`, `get_device_keys`,
`create_outbound_session`, `encrypt_message` and `decrypt_message`. Each
is a pure transition: it takes the optional manager and returns a result
together with the new optional manager. The cryptography is opaque. An
account is its two public keys. A group session is a session id, an initial
ratchet secret and a message index. The ciphertext comes from a
function-valued parameter, the *sealer*. The random draws are parameters
of the calls that make them: the account for `Account::new` and the session
seed for `GroupSession::new`.

Modules:

- `Results`: `Option` and `Result`.
- `Hex`: the `hex::encode` text form, plus a reference decoder that undoes it.
- `Crypto`: the opaque account, group session and sealer.
- `Types`: the boundary records and the error kinds, with their exact texts.
- `Manager`: the `EncryptionManager` methods.
- `Exports`: the exported functions over `Option<EncryptionManager>`.
- `Lifecycle`: runs of calls in sequence, and the properties that span several calls.

Facts about the code that the model keeps:

- Initialisation never fails. It replaces any existing manager, and with it every session (`rust-core/src/lib.rs:90-94`).
- `create_outbound_session` accepts any room id, including the empty one, and returns `()` (`rust-core/src/lib.rs:60-64`).
- Nothing keeps a replaced outbound session: `insert` overwrites it (`rust-core/src/lib.rs:62`).
- There is no inbound-session store. The comment at `rust-core/src/lib.rs:82-84` names it as missing.
- Decryption always fails with "Decryption not yet implemented" (`rust-core/src/lib.rs:85`). The exported entry point first rejects text that does not parse as an envelope (`rust-core/src/lib.rs:125-126`).
- The envelope's `sender_key` is computed from the account (`rust-core/src/lib.rs:71-76`), not read from the stored device keys. `Manager.Valid` is the invariant that makes the two agree. Every operation preserves it.

## Model

| member | source | states |
|---|---|---|
| Hex.Encode | rust-core/src/lib.rs:45-46 | hex text is exactly twice as long as the bytes, and uses only `0`-`9` and `a`-`f` |
| Hex.DecodeEncode | rust-core/src/lib.rs:45-46 | hex encoding loses nothing: decoding the text gives back the original bytes |
| Hex.EncodeDecode | rust-core/src/lib.rs:45-46 | every string the decoder accepts is the encoding of the bytes it decodes to, so the decoder is an exact inverse |
| Hex.EncodeInjective | rust-core/src/lib.rs:75-77 | two byte strings have the same hex text only if they are equal, so distinct session ids give distinct envelope `session_id`s |
| Hex.EncodeHighNibbleFirst | rust-core/src/lib.rs:45-46 | fixes the digit order: for every byte `i`, position `2i` holds the digit of its high nibble and position `2i+1` the digit of its low nibble. Example: byte 171 is written "ab" |
| Crypto.Encrypt | rust-core/src/lib.rs:70 | `session.encrypt`: the ciphertext is the sealer's output for the session's current state. The returned session keeps its id and secret, and its message index is exactly one higher |
| Types.Text | rust-core/src/lib.rs:68 | the text of each failure is non-empty and starts with a letter that differs between kinds. The missing-session text ends with the room id, and the format-error text ends with the parser's detail. The exact texts are those at lib.rs:68, 85, 101 and 126 |
| Types.TextInjective | rust-core/src/lib.rs:101 | two failures have the same text exactly when they are the same failure, so a caller can tell every kind, room and parse detail apart from the text alone |
| Manager.ValidKeysDecode | rust-core/src/lib.rs:42-47 | when the stored keys agree with the account, each published key is 64 lowercase hex characters and decodes to the account's key |
| Manager.New | rust-core/src/lib.rs:38-54 | the new manager holds the given account, has no outbound sessions, carries the caller's user and device ids, and publishes hex keys that decode to the account's identity keys |
| Manager.GetDeviceKeys | rust-core/src/lib.rs:56-58 | returns the whole stored record, user and device ids included. In a consistent manager its keys decode to the account's key pair and are well-formed 64-character keys |
| Manager.CreateOutboundSession | rust-core/src/lib.rs:60-64 | always `Ok`. Afterwards the room has a session with index 0 from the given seed, replacing any earlier one. The table's rooms are the old rooms plus this one. Other rooms, the account and the device keys are unchanged |
| Manager.EncryptMessage | rust-core/src/lib.rs:66-79 | fails with the missing-session error, and leaves the manager unchanged, exactly when the room has no session. On success the envelope has the Megolm tag, the account's Curve25519 key (equal to the published one), the hex of the room's session id, and the hex of the sealer's output for the session's current state. Only that session's index advances, by one. The set of rooms, the other sessions and the identity are unchanged |
| Manager.DecryptMessage | rust-core/src/lib.rs:81-86 | refuses every envelope for every room with the not-implemented error, and leaves the manager unchanged |
| Exports.InitEncryption | rust-core/src/lib.rs:89-94 | always `Ok`, whatever the previous state. Installs a consistent manager with an empty session table, the given user and device ids, and well-formed keys |
| Exports.GetDeviceKeys | rust-core/src/lib.rs:96-103 | read-only. Fails with "Encryption not initialized" exactly when no manager exists, and otherwise returns the stored identity |
| Exports.CreateOutboundSession | rust-core/src/lib.rs:105-112 | fails without a manager, leaving the slot empty. Otherwise succeeds, installs a fresh session for the room, and leaves other rooms and the identity unchanged |
| Exports.EncryptMessage | rust-core/src/lib.rs:114-121 | with no manager, fails with "Encryption not initialized" and changes nothing. With no session for the room, fails with the missing-session error and changes nothing. Otherwise returns the envelope described for `Manager.EncryptMessage`. That room keeps its session id and secret and its index advances by one. The set of rooms, the other sessions, the account and the device keys are unchanged |
| Exports.DecryptMessage | rust-core/src/lib.rs:123-133 | never succeeds and never changes the state. Unparseable text fails with the format error, whether or not a manager exists. Parseable text fails with "Encryption not initialized" when there is no manager, and otherwise with the not-implemented error |
| Lifecycle.Apply | rust-core/src/lib.rs:89-133 | no exported call breaks the agreement between published keys and account. Before initialisation, every call other than init fails and leaves the slot empty |
| Lifecycle.RunPreservesValid | rust-core/src/lib.rs:42-47 | in any sequence of calls, the published device keys stay the hex of the current account's keys |
| Lifecycle.UninitialisedRunFails | rust-core/src/lib.rs:96-133 | from an empty slot, any sequence of calls without init fails at every call and leaves the slot empty |
| Lifecycle.RunKeepsIdentityAndRooms | rust-core/src/lib.rs:56-79 | without re-initialisation, the account and device keys never change and no room loses its session. Every room with a session was present at the start or was created by a call in the run |
| Lifecycle.InitDiscardsSessions | rust-core/src/lib.rs:90-94 | after init and any later calls without another init, the only rooms with sessions are those created after the init, and the identity carries the init's user and device ids |
| Lifecycle.RunAdvancesCounter | rust-core/src/lib.rs:67-70 | while a room's session is neither replaced nor discarded by init, every encryption for that room succeeds, its session id stays the same, and its message index grows by exactly the number of those encryptions |
| Lifecycle.AliceScenario | rust-core/src/lib.rs:89-121 | init "alice"/"DEV1", then create "room1", then encrypt "hello", then get keys. The keys name alice and DEV1. The envelope has the Megolm tag, a 64-character lowercase hex sender key equal to the published one, the hex of the seed's session id, and the hex of the fresh session's ciphertext |

## Left out

- The `Mutex` around the process-wide state and `lock().unwrap()` poisoning are not modelled. The state is one value passed through sequential calls, which is the order the lock imposes.
- The cryptographic library's internals are not modelled: key generation, group-session creation, ratchet arithmetic and ciphertext contents. The account, the session seed and the sealer are parameters.
- An account is modelled by its public identity keys only. The private keys are never visible to the manager.
- A session id is modelled as the bytes that `hex::encode` receives. In the source these are the bytes of the library's textual session id.
- The sealer stands for the bytes of `message.ciphertext()`. The model does not say what those bytes contain.
- JSON parsing of the envelope text (`serde_json::from_str`) and the `Serialize`/`Deserialize` derives are not modelled. Parsing is a parameter that either yields an envelope or an error text.
- `uniffi` export attributes and `setup_scaffolding!` are foreign-function glue and are not modelled.
- Errors are the datatype `Types.Error`. `Types.Text` gives the exact text the source returns for each kind. The text inside a parse error is the parser's own detail.
- Inbound sessions, key rotation with a grace period, replay rejection, and the error kinds "already initialised", "invalid conversation id" and "unknown session" do not exist in the source, so they are not modelled.
- Crypto.GroupSession: the library's message index is a 32-bit counter, but the model's `messageIndex` is an unbounded `nat`, so wrap-around after 2^32 messages is not modelled.
- `DecryptionResult` is declared but never produced, because decryption always fails.
