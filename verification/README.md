# Stunner core: a verified model

Stunner is a peer-to-peer messenger. This project models its protocol core in Dafny and proves what
the core is for: two endpoints of a Double Ratchet agree on every genuine message over a network that
reorders, delays and drops; what one accepts under a protected header comes from the other; within one
session no ciphertext is accepted twice and no key seals twice; X3DH puts both sides in matching states;
offline messages, live streams and files come out exactly as they went in.

| file | models |
|---|---|
| `Primitives.dfy`, `Encoding.dfy` | byte strings, symbolic keys; `itoa`, hex names, header bytes, associated data |
| `RatchetModel.dfy`, `RatchetObject.dfy` | the ratchet as functions on its state, and as the mutable object with its string-keyed store |
| `Replay.dfy` | one endpoint against arbitrary inputs |
| `Tables.dfy`, `Epochs.dfy`, `Agreement.dfy` | two endpoints and everything in flight |
| `Authenticity.dfy` | two endpoints and a network that makes up messages; several sessions |
| `Failures.dfy` | what failed, repeated and out-of-step deliveries cost |
| `FifoLink.dfy`, `SecureLink.dfy` | two endpoints on ordered channels; the whole encrypted link |
| `ForwardSecrecy.dfy` | what can be derived from an endpoint's state |
| `Handshake.dfy`, `Sessions.dfy`, `Offline.dfy` | X3DH, the session store, mailbox and offline delivery |
| `FileTransfer.dfy`, `LinkStream.dfy` | chunking, and the locked send blocks parsed back by the receive loop |
| `Hkdf.dfy`, `Pbkdf2.dfy` | the key derivation loops against RFC 5869 and RFC 8018 |
| `Signaling.dfy`, `LinkTable.dfy`, `Emoji.dfy` | the in-process signaling fabric, link ownership, the shortcode rewriter |

How the agreement proof goes. Ratchet keys are numbered in the order the conversation generates them,
and each opens an *epoch* of messages from its owner; epoch 0 is what the responder sends before it has
received anything, on a chain that starts from the nil key. A party only generates a key on seeing its
peer's newest one, so the number of keys alone says which epoch each endpoint is in, and neither can miss
a whole peer epoch. `Epochs.Endpoint` fixes every field of an endpoint in epoch `e`: its root and chain
keys are the key schedule's, and its skipped store holds exactly the keys of the positions it has passed
and not accepted. `Epochs.Receive` shows that one delivery that finds its receiver *in step* keeps this and
opens the message exactly when the gaps are within the limit; `Agreement.RunKeeps` carries it over whole
runs. In step is a test on the receiver's state and the header: while it has no receive chain, `skip` does
nothing, so a message of the current chain must be its first, and a new key's owner must have sent nothing
before. `Agreement.DeliverExactly` shows that a delivery out of step always breaks the invariant, and
`Failures.OutOfStepCosts` that it loses a message for good.

Cryptography is symbolic: HMAC and HKDF outputs are free terms, Diffie-Hellman is a commutative
function of two public keys that fails on low-order points, and an AEAD box opens under exactly the
key, nonce and associated data that sealed it. Generated keys are inputs; where freshness matters it is
a stated condition. Arithmetic on message counters is uint32 with wrap-around.

Where the code does less than a reader might expect, the model follows the code:

- A responder that encrypts before it has decrypted starts its chain from the nil key
  (core/pkg/crypto/ratchet.go:57-59, 123-126). Such messages take part in the agreement theorem as epoch 0.
  They all open in order (`FifoLink.EverythingOpens`); out of order, exactly the deliveries that find the
  initiator in step keep the two sides in agreement. Their keys are also the only ones that can be derived
  later (`ForwardSecrecy.SpentKeysUnderivable` is an equivalence).
- The same chain carries no authenticity and does not separate sessions. `Authenticity.AuthenticExactly` says
  for which headers all that is accepted is the peer's; in the runs of module Agreement the others are those
  that name the responder's signed prekey while the initiator is in, or has stored keys of, epoch 0
  (`Authenticity.UnprotectedInRuns`), and under them any plaintext is accepted
  (`Authenticity.UnprotectedExactly`). Two sessions share sealing keys exactly in epoch 0
  (`Authenticity.KeysAcrossSessions`), and the responder's first message of one opens in another with the
  same peer (`Authenticity.FirstReplyCrosses`).
- Only the signed prekey of a bundle is signed (core/pkg/crypto/x3dh.go:63-65). A bundle whose identity key or
  one-time key was replaced is accepted, and opens a session in which nothing gets through
  (`Handshake.ReplacedIdentityKey` is the shortest case, `Handshake.AcceptedBundle` the exact condition).
- `FetchOffline` empties the box before it opens anything, so one frame that does not open loses all
  (`Offline.FetchExactly`).
- A failed decrypt may have advanced the chain or the ratchet (core/pkg/crypto/ratchet.go:102-105).
  `Replay.FailureUnchangedExactly` says when it has not, `Failures.FailureKeepsExactly` that the two sides
  stay in agreement in exactly those cases, and `Failures.RedeliveryCosts` what delivering an accepted
  message again does: the peer's next message is lost for good.
- A file of more than 2^32 chunks wraps its chunk index and is never accepted
  (`FileTransfer.RoundTrip` is an equivalence).
- Two outstanding dials between the same pair can receive each other's answers
  (`Signaling.CrossedAnswers` is the shortest run); one more dial is safe exactly when none of its pair is
  outstanding (`Signaling.DialSafeExactly`).
- A link adopted after Stop stays open (`LinkTable.AdoptedAfterStopStaysOpen`) unless something later
  ends it (`LinkTable.ClosedExactly`); Stop closes all links adopted before it (`LinkTable.StopClosesAll`).
- The documentation names XChaCha20-Poly1305 for file chunks; the code uses AES-256-GCM with a
  12-byte counter nonce, which is what `FileTransfer.NonceInjective` is about.
- `hkdf` accepts lengths beyond 255 hash blocks and lets its byte counter wrap; `pbkdf2` treats an
  iteration count below 1 as 1.

## Model

| member | source | states |
|---|---|---|
| `Agreement.Agreement` | core/pkg/crypto/ratchet.go:70-160 | after every run of sends by either side at any time, deliveries in any order that finds the receiver in step, losses and junk refused early: a genuine message not yet accepted, delivered in whatever order, decrypts to the plaintext sent if and only if its gaps are within the limit and, in the current chain, the receiver is in step; the joint invariant survives if and only if it is in step |
| `Agreement.DeliverExactly` | core/pkg/crypto/ratchet.go:83-136 | the same for one delivery from any state satisfying the invariant |
| `Agreement.SkipLimit` | core/pkg/crypto/ratchet.go:88-101 | after every run, a genuine message in step whose key is not stored: in the current chain it opens if at most 1000 ahead and is refused without effect beyond; a new epoch is refused without effect if more than 1000 messages of the previous chain are missing, and otherwise entered, where numbers up to 1000 open |
| `Agreement.SkippedStoreExact` | core/pkg/crypto/ratchet.go:108-136 | after every run an endpoint stores a key for a position if and only if it passed the position and has not accepted its message; it is the key that sealed it, and nothing else is stored |
| `Agreement.InOrderDelivery` | core/pkg/crypto/ratchet.go:83-106 | when all the sender's earlier messages have been accepted, its next one is in step and always decrypts, across DH ratchet steps and also when the responder spoke first |
| `Agreement.DeliverKeeps` | core/pkg/crypto/ratchet.go:83-106 | a delivery in step opens exactly when within the limit, and keeps the joint invariant also when the limit refuses it before or after the DH step |
| `Agreement.SendKeeps` | core/pkg/crypto/ratchet.go:70-80 | a send keeps the joint invariant and occupies a position no earlier message had |
| `Agreement.RunKeeps` | core/pkg/crypto/ratchet.go:70-160 | every reachable pair of endpoints, with all messages in flight and junk injected where it is refused early, satisfies the joint invariant |
| `Agreement.EstablishedInv` | core/pkg/crypto/ratchet.go:42-59 | the states the two constructors build satisfy the joint invariant |
| `Epochs.Receive` | core/pkg/crypto/ratchet.go:83-160 | one endpoint, one genuine message of any epoch that finds it in step: outcome and complete new state, moving two epochs on exactly when the message opens a new epoch within reach |
| `Epochs.OutOfStepShape` | core/pkg/crypto/ratchet.go:42-59 | only an initiator that has received nothing can be out of step, with a later message of epoch 0 or with epoch 2 when epoch 0 was used |
| `Epochs.OpenPassed` | core/pkg/crypto/ratchet.go:108-121 | a message passed over opens with its stored key, which is then deleted |
| `Epochs.OpenAhead` | core/pkg/crypto/ratchet.go:99-105 | a message ahead in the chain opens within the limit, storing the keys between; beyond it nothing changes |
| `Epochs.FinishEpoch` | core/pkg/crypto/ratchet.go:91-94 | the skip over the previous chain is refused exactly beyond the limit, and otherwise leaves no position of it unaccounted |
| `Epochs.RatchetKeeps` | core/pkg/crypto/ratchet.go:138-160 | the DH step lands on the root and chain keys the peer derives, two epochs on, with the store untouched |
| `Epochs.EndpointStable` | core/pkg/crypto/ratchet.go:19-33 | nothing the peer does invalidates what an endpoint holds |
| `Failures.FailureKeepsExactly` | core/pkg/crypto/ratchet.go:83-160 | after a failing decrypt of any input, genuine, repeated or forged, the joint invariant with the same history holds if and only if the input was refused early |
| `Failures.RedeliveryCosts` | core/pkg/crypto/ratchet.go:99-105 | delivering an accepted message of the current chain again fails, breaks the invariant, and makes the peer's next message unacceptable under all further inputs |
| `Failures.RedeliveryReached` | core/pkg/crypto/ratchet.go:99-105 | one send and one delivery lead to such a case |
| `Failures.OutOfStepCosts` | core/pkg/crypto/ratchet.go:91-105 | every delivery out of step, even one that opens, breaks the invariant and makes the responder's first message, sent and not accepted, unacceptable under all further inputs |
| `Failures.OutOfStepReached` | core/pkg/crypto/ratchet.go:57-59 | two messages from the responder lead to such a case |
| `Failures.TriedIsLost` | core/pkg/crypto/ratchet.go:99-105 | any input that reaches the current chain spends the key of one position, and whatever the peer sends there is lost |
| `FifoLink.EverythingOpens` | core/pkg/crypto/ratchet.go:70-160 | over every run on ordered channels in both directions, whoever speaks first and though up to 1000 writes each way fail after sealing, what was received followed by what is in the channel is exactly what was sent into it, and the next message opens |
| `Authenticity.AcceptedIsAuthentic` | core/pkg/crypto/ratchet.go:70-160 | over all runs against a network that seals under any key not from the session's secret and reuses ciphertexts at will, what an endpoint accepts under a protected header was sealed by its peer (not itself), for that header, with that plaintext |
| `Authenticity.AuthenticExactly` | core/pkg/crypto/ratchet.go:70-160 | in every reachable state, all that can be accepted under a header is the peer's if and only if the header is protected |
| `Authenticity.UnprotectedExactly` | core/pkg/crypto/ratchet.go:83-136 | a ciphertext made from the nil key alone is accepted under unprotected headers and no others, with any plaintext |
| `Authenticity.UnprotectedInRuns` | core/pkg/crypto/ratchet.go:57-160 | in the runs of module Agreement, a header is unprotected if and only if it names the responder's signed prekey and the receiver is the initiator, in epoch 0 of its peer or holding that position's key |
| `Authenticity.KeysAcrossSessions` | core/pkg/crypto/ratchet.go:162-176 | sessions with different secrets share a sealing key if and only if both messages are of epoch 0 with the same number |
| `Authenticity.SealingKeysAcross` | core/pkg/crypto/ratchet.go:70-80 | over arbitrary inputs to both, ratchets with different secrets seal under one key only while both send on the nil chain |
| `Authenticity.FirstReplyCrosses` | core/pkg/crypto/ratchet.go:57-59 | for two sessions with the same responder key and associated data, the responder's first message of one opens at the initiator of the other, and both seal under the same key and nonce |
| `Replay.AtMostOnce` | core/pkg/crypto/ratchet.go:83-160 | over any inputs to one endpoint, forged headers and failing DH steps included, a ciphertext accepted once is never accepted again |
| `Replay.SealingKeysDistinct` | core/pkg/crypto/ratchet.go:70-80 | over any inputs to one endpoint, two messages are never sealed under the same AES key or nonce |
| `Replay.DecryptAges` | core/pkg/crypto/ratchet.go:83-160 | every decrypt, successful or not, only moves chains forward; an accepted message's key was unspent and becomes spent |
| `Replay.FailureUnchangedExactly` | core/pkg/crypto/ratchet.go:83-160 | a failed decrypt leaves the state as it was if and only if a test on state and header refuses it before anything is written; every other failure has already moved a chain or the ratchet |
| `Replay.RunAges` | core/pkg/crypto/ratchet.go:70-160 | the same over every sequence of inputs |
| `RatchetModel.SkipBound` | core/pkg/crypto/ratchet.go:123-136 | one skip adds at most 1000 keys, even when the uint32 bound wraps, and drops none |
| `RatchetModel.DecryptBound` | core/pkg/crypto/ratchet.go:83-106 | one decrypt of any message adds at most 2000 keys |
| `RatchetModel.SkipRefusedExactly` | core/pkg/crypto/ratchet.go:124-129 | with a receive chain, exactly positions beyond nr + 1000 modulo 2^32 are refused |
| `RatchetModel.ErrorsExactly` | core/pkg/crypto/ratchet.go:83-160 | which error every input meets, in the order of the tests, and what it leaves unchanged |
| `RatchetModel.SkipStoresExactly` | core/pkg/crypto/ratchet.go:123-136 | skip adds exactly the keys of the positions it passes and keeps all others |
| `RatchetObject.NewInitiator` | core/pkg/crypto/ratchet.go:42-55 | derives the model's initial state from the secret and the remote key, or reports a bad key |
| `RatchetObject.NewResponder` | core/pkg/crypto/ratchet.go:57-59 | holds the model's initial responder state |
| `RatchetObject.Ratchet.Encrypt` | core/pkg/crypto/ratchet.go:70-80 | the object's new state and output are the model's |
| `RatchetObject.Ratchet.Decrypt` | core/pkg/crypto/ratchet.go:83-106 | the object with its string-keyed store does exactly what the position-keyed model does, on every input and every error path |
| `RatchetObject.Ratchet.TrySkipped` | core/pkg/crypto/ratchet.go:108-121 | a stored key decides the outcome, errors included, and is deleted only on success |
| `RatchetObject.Ratchet.Skip` | core/pkg/crypto/ratchet.go:123-136 | with a receive chain, refuses exactly beyond nr + 1000 modulo 2^32; otherwise the loop's state is the model's closed form |
| `RatchetObject.Ratchet.DeriveUntil` | core/pkg/crypto/ratchet.go:130-134 | the loop stores the whole range of keys and advances the chain as far |
| `RatchetObject.Ratchet.DhRatchet` | core/pkg/crypto/ratchet.go:138-160 | all fields after success and after each of the three failures |
| `RatchetObject.SameStoreInsert` | core/pkg/crypto/ratchet.go:132 | writing under a name writes exactly one position |
| `RatchetObject.SameStoreRemove` | core/pkg/crypto/ratchet.go:119 | deleting a name deletes exactly one position |
| `ForwardSecrecy.SpentKeysUnderivable` | core/pkg/crypto/ratchet.go:102-176 | after every run, the key of a message an endpoint has sent or accepted can be reached by KDF and HMAC steps from its secrets, all DH outputs given, if and only if the message is of epoch 0 |
| `ForwardSecrecy.DoneUntraced` | core/pkg/crypto/ratchet.go:102-176 | no ancestor of such a key of a later epoch is held |
| `Encoding.Itoa` | core/pkg/crypto/ratchet.go:237-249 | the 10-byte buffer suffices for every uint32, and the text denotes the number without a leading zero |
| `Encoding.DecimalInjective` | core/pkg/crypto/ratchet.go:237-249 | decimal texts determine numbers |
| `Encoding.HexDigits` | core/pkg/crypto/ratchet.go:109-132 | names spell the DH key in lower-case hexadecimal, the high digit of each byte first |
| `Encoding.SkipNameInjective` | core/pkg/crypto/ratchet.go:109-132 | distinct (DH key, n) have distinct names |
| `Encoding.HeaderBytesInjective` | core/pkg/crypto/ratchet.go:216-223 | header bytes determine DH, PN and N for any DH length |
| `Encoding.HeaderLayout` | core/pkg/crypto/ratchet.go:216-223 | header bytes are the DH key, four octets denoting PN and four denoting N, the most significant first |
| `Encoding.AssociatedDataSymmetric` | core/pkg/crypto/session.go:43-51 | both sides compute the same associated data |
| `Encoding.SmallerFirst` | core/pkg/crypto/session.go:46-51 | the key with the smaller octet where they first differ comes first |
| `Encoding.AuthenticatedBytesInjective` | core/pkg/crypto/session.go:46-51 | the authenticated bytes determine the unordered identity pair and the whole header |
| `Handshake.X3dhAgrees` | core/pkg/crypto/x3dh.go:62-113 | for all generated keys, with or without a one-time key, both sides derive the secret of the same Diffie-Hellman outputs, in the order the X3DH protocol gives |
| `Handshake.InitiateExactly` | core/pkg/crypto/session.go:86-112 | exactly which bundles are accepted |
| `Handshake.AcceptExactly` | core/pkg/crypto/session.go:114-133 | exactly which handshakes are accepted |
| `Handshake.Establishes` | core/pkg/crypto/session.go:86-133 | Initiate on a published bundle and Accept on its handshake give equal associated data and a pair of ratchets the agreement theorem starts from |
| `Handshake.AcceptedBundle` | core/pkg/crypto/x3dh.go:62-113 | a bundle accepted under an identity that signed one prekey carries that prekey, the peer accepts the handshake and both bind the same associated data; the pair is established if and only if the bundle's identity key is the peer's and its one-time key is missing or the peer's |
| `Handshake.SecretsAgreeExactly` | core/pkg/crypto/x3dh.go:62-113 | with the signed prekey genuine, both sides derive the same secret if and only if the other keys are the peer's own |
| `Handshake.ReplacedIdentityKey` | core/pkg/crypto/x3dh.go:63-65 | a bundle with a replaced identity key is accepted and opens no established session |
| `Sessions.SessionStore.constructor` | core/pkg/crypto/session.go:75-77 | a new store has no sessions |
| `Sessions.SessionStore.Initiate` | core/pkg/crypto/session.go:86-112 | success registers the new ratchet under the peer's fingerprint; failure changes nothing |
| `Sessions.SessionStore.Accept` | core/pkg/crypto/session.go:114-133 | the same for the responder, with its error for missing prekeys |
| `Offline.OfflineDelivery` | core/pkg/node/node.go:179-229 | after any posts by any senders, a recipient with unchanged prekeys reads exactly the envelopes addressed to it, in posting order |
| `Offline.OfflineRoundTrip` | core/pkg/node/node.go:179-229 | an envelope sealed for a published bundle opens with the prekeys behind it |
| `Offline.FirstMessageOpens` | core/pkg/crypto/ratchet.go:42-160 | a fresh responder opens a fresh initiator's first message if and only if both start from the same secret |
| `Offline.ClaimedBundleOpens` | core/pkg/node/node.go:179-229 | a message composed for an accepted bundle that names the recipient opens there if and only if the bundle's unsigned keys are the recipient's own |
| `Offline.SendOffline` | core/pkg/node/node.go:179-197 | success appends one frame to the recipient's box; failure leaves the mailbox as it was |
| `Offline.FetchOffline` | core/pkg/node/node.go:200-229 | returns all envelopes in order if and only if every queued frame opens, and the first failure otherwise; in both cases empties its own box and no other |
| `Offline.FetchExactly` | core/pkg/node/node.go:206-228 | a fetch succeeds if and only if every frame opens by itself, and then yields each envelope in place; otherwise only the first failing frame's error |
| `Offline.OpenExactly` | core/pkg/node/node.go:206-227 | a queued frame opens if and only if it decodes, carries a handshake that is accepted, and its payload decrypts; the error of each missing step |
| `Offline.Mailbox.Put` | core/pkg/mailbox/mailbox.go:32-37 | appends to one queue |
| `Offline.Mailbox.Fetch` | core/pkg/mailbox/mailbox.go:39-45 | returns a whole queue, empties it and leaves the others |
| `Offline.Mailbox.Pending` | core/pkg/mailbox/mailbox.go:47-51 | the length of a queue |
| `FileTransfer.Split` | core/pkg/filetransfer/impl.go:16-49 | every field of the offer (chunk size 16384 by default), and every field of every chunk |
| `FileTransfer.Reassemble` | core/pkg/filetransfer/impl.go:53-76 | succeeds if and only if the chunks are indexed 0 to n-1 once each, all open, and size and hash match, with the joined plaintext; otherwise the error of the first faulty chunk, else of the size, else of the hash |
| `FileTransfer.RoundTrip` | core/pkg/filetransfer/impl.go:16-76 | any permutation of a file's chunks rebuilds the file, and nothing else, if and only if the chunk count fits 32 bits; empty files included |
| `FileTransfer.OnlyWholeFileAccepted` | core/pkg/filetransfer/impl.go:53-76 | an accepted list holds every chunk of the file once, unaltered, so dropped, duplicated and altered chunks are rejected |
| `FileTransfer.JoinedPieces` | core/pkg/filetransfer/impl.go:35-47 | the pieces join to the data |
| `FileTransfer.PieceAt` | core/pkg/filetransfer/impl.go:36-46 | piece i is the i-th stretch of chunk-size octets, only the last may be shorter |
| `FileTransfer.PieceCount` | core/pkg/node/file.go:43-47 | the receiver's ceiling division equals the number of chunks sent |
| `FileTransfer.KeyLength` | core/pkg/filetransfer/impl.go:62-65 | nothing but the empty file is rebuilt under a key that is not 32 octets long |
| `FileTransfer.NonceInjective` | core/pkg/filetransfer/impl.go:78-84 | chunk nonces are distinct |
| `FileTransfer.NonceLayout` | core/pkg/filetransfer/impl.go:78-84 | a nonce is eight zero octets and four denoting the index, the most significant first |
| `FileTransfer.SortedIsIndexOrder` | core/pkg/filetransfer/impl.go:54-61 | sorting finds the index order whenever one exists |
| `LinkStream.ConcurrentSendersRecovered` | core/pkg/node/node.go:135-157 | under every schedule of sending threads, writes failing anywhere, the receive loop reports first the calls completed before any failure, in lock order, each file whole; with no failure and the lock free it reports exactly the calls that took it; each thread's calls in its own order, none lost |
| `SecureLink.SecureStreamRecovered` | core/pkg/node/node.go:102-174 | the same through encryption: with both sides sending as they like over ordered channels and writes failing after sealing, the peer decodes a prefix of what got into the channel, and reports exactly the calls once the channel is empty and no call failed |
| `LinkStream.StreamRecovered` | core/pkg/runtime/runtime.go:455-500 | blocks written one after the other are reported one after the other |
| `LinkStream.FileRecovered` | core/pkg/node/file.go:43-61 | the receiver consumes exactly the chunks of a file, whatever follows, and rebuilds it |
| `LinkStream.ReceiveFileBody` | core/pkg/node/file.go:43-61 | how many envelopes are consumed and what they rebuild, on every stream |
| `LinkStream.ReceiveLoop` | core/pkg/runtime/runtime.go:455-500 | the loop parses every stream as the recursive dispatch does, turns files that cannot be saved into errors, and sends one receipt for each text and each file kept, in order |
| `LinkStream.ReceiptsAnswerCalls` | core/pkg/runtime/runtime.go:466-489 | when files can be saved, the receipts name exactly the texts and the files that fit, in the order of the calls |
| `LinkStream.EventsAt` | core/pkg/runtime/runtime.go:478-490 | each item is reported in its place, a file that could not be saved as an error |
| `LinkStream.OnlyChunksOpen` | core/pkg/node/file.go:49-59 | no other envelope read as a chunk ever opens |
| `LinkStream.Sender.SendEnvelope` | core/pkg/node/node.go:137-141 | writes any envelope as one block |
| `LinkStream.Sender.SendFile` | core/pkg/node/node.go:233-251 | writes the offer, with every field from the arguments, and all chunks as one block, from which the peer reports the file under the name and with the data given, if it has at most 2^32 chunks |
| `Hkdf.Hkdf` | core/pkg/crypto/kdf.go:11-31 | exactly the requested length always, and the output of sections 2.2 and 2.3 of RFC 5869 for every length up to 255 blocks |
| `Hkdf.ExtractExactly` | core/pkg/crypto/kdf.go:12-18 | extraction is keyed by the salt, or by 32 zero octets if it is empty |
| `Hkdf.KdfRoot` | core/pkg/crypto/ratchet.go:166-169 | root key and chain key as HMAC terms under the label "stunner-root" |
| `Hkdf.ChainStep` | core/pkg/crypto/ratchet.go:172-176 | the message key is the HMAC of 01, the next chain key that of 02 |
| `Hkdf.MessageKeys` | core/pkg/crypto/ratchet.go:180-183 | AES key and nonce as HMAC terms under the label "stunner-msg" and a zero salt |
| `Hkdf.OkmPrefix` | core/pkg/crypto/kdf.go:11-31 | shorter outputs are prefixes of longer ones |
| `Hkdf.RootSplit` | core/pkg/crypto/ratchet.go:166-169 | the root key is T(1) and the chain key T(2) |
| `Hkdf.MessageKeysSplit` | core/pkg/crypto/ratchet.go:180-183 | the AES key is T(1) and the nonce the first 12 bytes of T(2) |
| `Hkdf.DeriveX3dh` | core/pkg/crypto/x3dh.go:116-122 | the secret as an HMAC term: zero salt, 32 octets of 0xFF followed by the DH outputs, label "stunner-x3dh" |
| `Pbkdf2.Pbkdf2` | core/pkg/vault/vault.go:73-99 | section 5.2 of RFC 8018 for every iteration count and key length, truncated to exactly the length asked for |
| `Pbkdf2.Int32Denotes` | core/pkg/vault/vault.go:83-84 | the index octets are its base-256 digits modulo 2^32, the most significant first |
| `Pbkdf2.OneIteration` | core/pkg/vault/vault.go:80-98 | one iteration and at most one block: a prefix of the HMAC of the salt and 00 00 00 01 |
| `Pbkdf2.TwoIterations` | core/pkg/vault/vault.go:80-98 | two iterations: octet by octet the exclusive or of that HMAC and its own HMAC |
| `Pbkdf2.Block` | core/pkg/vault/vault.go:81-95 | one block is U_1 xor ... xor U_c although one buffer accumulates in place and the other is reused |
| `Pbkdf2.XorInto` | core/pkg/vault/vault.go:92-94 | the in-place exclusive or |
| `Signaling.AnswersRouted` | core/pkg/signaling/memory.go:113-140 | over every run of any number of nodes and dials, accept loops receive offers only, each reply is queued at the peer whose offer is answered, and callers receive only answers to dials of theirs to that callee |
| `Signaling.AnswersMatchDials` | core/pkg/signaling/memory.go:113-140 | with at most one outstanding dial per ordered pair, a caller receives the answer to that dial and answering never blocks |
| `Signaling.DialSafeExactly` | core/pkg/signaling/memory.go:46-55 | in every world single dials lead to, one more dial is safe under all continuations with single dials if and only if no dial of its pair is outstanding; otherwise some caller can receive another dial's answer |
| `Signaling.Registry.SendSDP` | core/pkg/signaling/memory.go:113-127 | an offer is appended to the peer's queue if fewer than 16 wait, an answer to that of the last peer heard from if fewer than 8 wait; otherwise it blocks, and fails if nobody was heard from |
| `Signaling.Registry.RecvSDP` | core/pkg/signaling/memory.go:131-140 | takes the oldest offer and makes its source the reply target, or the oldest answer of the peer named; blocks exactly on an empty queue |
| `LinkTable.NoLinkLost` | core/pkg/runtime/runtime.go:443-463 | over every interleaving of adoptions, drops, closes and Stop, each adopted link is in the table under its fingerprint, closed, or owed a Close |
| `LinkTable.CurrentUntilDisplaced` | core/pkg/runtime/runtime.go:562-575 | a link stays current exactly until a newer link of its peer, its own drop, or Stop |
| `LinkTable.StaleDropsHarmless` | core/pkg/runtime/runtime.go:568-575 | failures of older links never remove a newer link of the same peer |
| `LinkTable.StopClosesAll` | core/pkg/runtime/runtime.go:320-340 | once no Close is owed after Stop, every adopted link is closed, for every run that adopts nothing afterwards |
| `LinkTable.ClosedExactly` | core/pkg/runtime/runtime.go:322-340 | a link adopted once, before or after Stop, is closed when no Close is owed any more if and only if a later action ended it: a newer link of its peer, a drop of it, or a first Stop |
| `LinkTable.AdoptedAfterStopStaysOpen` | core/pkg/runtime/runtime.go:443-453 | a link adopted after Stop is left open |
| `LinkTable.Runtime.AdoptLink` | core/pkg/runtime/runtime.go:443-450 | registers the link and closes the one it replaces |
| `LinkTable.Runtime.DropLink` | core/pkg/runtime/runtime.go:568-575 | removes the link only if current, and closes it |
| `LinkTable.Runtime.StopAll` | core/pkg/runtime/runtime.go:322-340 | closes every link in the table, the signaler and the transport; a second call changes nothing |
| `Emoji.Replace` | core/pkg/emoji/emoji.go:57-82 | equals splitting at colons and pairing the segments from the left |
| `Emoji.UnchangedExactly` | core/pkg/emoji/emoji.go:55-82 | a string is unchanged if and only if no colon pair holds a known name |
| `Emoji.Idempotent` | core/pkg/emoji/emoji.go:55-82 | rewriting twice is rewriting once |
| `Emoji.RewritePair` | core/pkg/emoji/emoji.go:60-79 | the first colon pair becomes its emoji if the name is known and stays as it is if not, and rewriting goes on after it |
| `Emoji.CatalogOnly` | core/pkg/emoji/emoji.go:33-53 | the twelve names, and nothing else, are found |
| `Emoji.CatalogFaces` | core/pkg/emoji/emoji.go:33-53 | the emoji of four names |
| `Emoji.CatalogSigns` | core/pkg/emoji/emoji.go:33-53 | the emoji of four more |
| `Emoji.CatalogThings` | core/pkg/emoji/emoji.go:33-53 | the emoji of the last four |
| `Emoji.LookupIgnoresCase` | core/pkg/emoji/emoji.go:50-53 | names that differ in the case of ASCII letters only are found alike |

## Left out

- The internals of AES-GCM, HMAC, SHA-256, X25519 and Ed25519: symbolic, as described above. Public keys name Diffie-Hellman outputs by their bytes, so byte strings that X25519 treats alike (other encodings of a point, points that differ by one of low order) count as different. Only the "only if" of `Handshake.AcceptedBundle`, `Handshake.SecretsAgreeExactly` and `Offline.ClaimedBundleOpens`, and `Handshake.ReplacedIdentityKey`, depend on that.
- Random generation: generated keys, file identifiers and transfer keys are parameters. A failing random source is modelled in the DH ratchet step only.
- JSON, base64 and frame encoding: decoding is taken to invert encoding, and an undecodable message is a value of its own.
- Handshake.X3dhAgrees: the X3DH secret is a term over the list of DH outputs; its bytes are treated in `Hkdf.DeriveX3dh` separately.
- Agreement.Agreement: the runs before the delivery it speaks of have chains short of 2^32 - 1000 messages, deliveries in step, and no failing input beyond what is refused early; both restrictions are exactly what keeps the invariant (`Agreement.DeliverExactly`, `Failures.FailureKeepsExactly`), and arbitrary input is the subject of modules Replay and Failures.
- LinkStream.ConcurrentSendersRecovered: what the receiver makes of the stream after a failed write is not described.
- LinkStream.ReceiveFileBody: the source allocates room for the announced number of chunks first (core/pkg/node/file.go:44-48) and panics when that number is too large to allocate or negative as an int, as for a size of 2^63 in chunks of one byte; the model reads on instead.
- LinkStream.ReceiveLoop: whether a file can be saved is a parameter, and a receipt that cannot be sent is ignored, as in the source.
- FifoLink.EverythingOpens: a direction with 1000 failed writes, or one while the responder has heard nothing, is left to `Agreement.Agreement`, which decides each message.
- FileTransfer.SortByIndex: stands for the library sort, of which only an ordered permutation is used; the hash comparison is equality.
- Signaling.Registry.SendSDP: descriptions are named by the dial they belong to; candidates, advertising and lookup are not modelled, and a blocked channel operation is reported instead of waiting.
- LinkTable.Runtime.AdoptLink: the events pushed on adoption and loss of a link are not modelled.
- Emoji.Replace: strings are sequences of Unicode scalars, and lower-casing is given for the characters that can lead into the table.
- Session lookup by fingerprint, message persistence, event polling, contacts, safety numbers and storage: they would only add easy members.
- The libsignal wrapper, WebRTC and libp2p transports, the libp2p signaler, bindings, accounts, disk access, the user interface, and all timing.
