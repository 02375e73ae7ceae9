# Hokora verification model

A Dafny model of the state machines and bounded structures at the centre of the
Hokora chat daemon, with machine-checked proofs about them. `dafny verify
dfyconfig.toml` checks the whole project.

Each component is a module. Where the source updates objects, a class does the
same in place and its contracts tie it to functions on values; the laws are
proved about those functions, over every run.

- **Forward-secrecy epochs.** `EpochWire` (frames and length framing),
  `EpochCrypto` (symbolic primitives: X25519 symmetric, HKDF injective, the AEAD
  opening only what it sealed), `EpochManager` (one end, with key buffers as
  arrays), `EpochAgreement` (two ends over a network that reorders, repeats and
  loses), `EpochForgery` (the same with anyone sending anything), `EpochDelivery`
  (an ordered lossy link), `EpochOverlap` (which frames stay readable) and
  `EpochNonces`.
- **Messages.** `MessageStore` (the tables and everything that writes to them),
  `MessageNode` (the same as an object), `MessageFidelity` (what is accepted and
  what each row says), `MessageNumbering`, `MessageContent`.
- **Replication.** `FederationPush` (cursor and acknowledgements),
  `FederationRounds` (a sender and a receiver as deployed), and the reconnect
  machine, interleaved at lock granularity: `MirrorLink` and `MirrorTimers`.
- **Live delivery.** `ZombieBuffer`, `LivePush`, `CdspSession`.
- **Bounded structures and codecs.** `RateLimit`, `NonceCache`, `PathCache`,
  `MediaStore`, `SealedKeys`, `Crc8` and `InviteCode`.

Clocks, randomness, the outcome of sends, signature and permission checks and
database results are parameters. An exception inside a transaction restores the
tables.

## What turned out not to hold

Each of these is stated as the code has it, with the exact condition.

- A framed sync message of 8192 to 8959 bytes starts with a byte that the link
  layer takes for an epoch frame (`EpochWire.FramedPayloadMisread`).
- The ack handler compares no epoch and no hash, so the ends agree only when the
  ack answers the latest rotate, which a comparison of the chain hash would tell
  (`EpochAgreement.AckAgreesIffChainMatches`). A retry after the responder
  switched ends agreement for good: later rotates are refused, as an epoch
  regression or for their chain hash, and the late ack of the crossed rotate is
  still accepted and gives the initiator keys nobody else has
  (`EpochAgreement.WedgedForever`, `EpochAgreement.LateAckDiverges`). So does any
  other ack accepted against that test (`EpochAgreement.AckDecides`), and a lost
  one (`EpochDelivery.LostAckIsFinal`). `EpochAgreement.WedgeIsReal` and
  `EpochDelivery.LossIsReal` are runs from the start.
- Reloading a snapshot older than the last encryption repeats a nonce
  (`EpochNonces.ReloadReusesIffStale`, `EpochNonces.ReuseIsReal`), and `load_state` drops the buffers it
  replaces without erasing them (`EpochManager.EpochLink.LoadState`).
- A receiver acknowledges newly stored messages by its own numbers, which the
  sender reads as its own: a message can be skipped for good
  (`FederationPush.DeployedAckSafeIff`, `FederationPush.LossExample`).
- A batch the receiver refuses whole is acknowledged with nothing, so the cursor
  never passes it (`FederationRounds.DrainsIff`, `FederationRounds.BlockedExample`).
- A reaction count is exact only while nobody beyond the first twenty reacts
  again (`MessageContent.ReactionCountExact`, `MessageContent.RecountExample`).
- The deferred queue is bounded only for a limit of two or more
  (`CdspSession.QueueBoundedIff`), and the second expiry sweep never removes
  anything (`CdspSession.SecondSweepIsNoop`).
- Evicting a rate bucket before it would be full breaks the limit itself
  (`RateLimit.BoundedIff`), and sweeping slowmode stamps younger than the
  slowmode breaks the slowmode (`RateLimit.LongSlowmodeBreaks`).
- A closed callback that overtakes the established one can strand the mirror as
  linked without a link; the exact condition is that the established callback
  runs while the mirror is neither connecting nor linked
  (`MirrorLink.GhostedIff`, `MirrorLink.OvertakingGhosts`).
- An upload larger than its channel may hold empties the channel and is then
  refused (`MediaStore.RefusalEmptiesChannel`).
- `remove_role` rotates a sealed key without writing it; a restart before the next
  write issues the same epoch number again (`SealedKeys.EpochFreshIff`).
- The last character of an invite carries one padding bit that is not checked
  (`InviteCode.MistypedInvite`).

Where code and documentation disagree the model follows the code: the checksum
is described as CRC-8/MAXIM, but the loop shifts towards the high bit with
polynomial 0x31 and initial value 0.

## Model

| member | source | states |
|---|---|---|
| EpochWire.UnpackPack | src/hokora/federation/epoch_wire.py:21-34 | big-endian packing of an in-range integer unpacks to it |
| EpochWire.PackUnpack | src/hokora/federation/epoch_wire.py:37-56 | unpacking bytes and packing the result gives the bytes back |
| EpochWire.PackInjective | src/hokora/federation/epoch_crypto.py:73-75 | two integers that fit the field and pack alike are equal |
| EpochWire.RotateRoundTrip | src/hokora/federation/epoch_wire.py:21-56 | every rotate frame with in-range fields encodes to the fixed length and decodes to itself |
| EpochWire.RotateCanonical | src/hokora/federation/epoch_wire.py:37-56 | every exact-length frame that decodes as a rotate re-encodes to the same bytes |
| EpochWire.AckRoundTrip | src/hokora/federation/epoch_wire.py:59-87 | the same round trip for ack frames |
| EpochWire.AckCanonical | src/hokora/federation/epoch_wire.py:69-87 | every exact-length frame that decodes as an ack re-encodes to the same bytes |
| EpochWire.DataRoundTrip | src/hokora/federation/epoch_wire.py:90-108 | every data frame with in-range fields decodes to itself |
| EpochWire.DataCanonical | src/hokora/federation/epoch_wire.py:95-108 | every data frame that decodes re-encodes to the same bytes, whatever its length |
| EpochWire.FramingRoundTrip | src/hokora/protocol/wire.py:28-43 | length framing succeeds exactly up to 65535 bytes, and stripping undoes it |
| EpochWire.FramingCanonical | src/hokora/protocol/wire.py:35-43 | whatever strips is exactly the framing of what it strips to |
| EpochWire.FramedPayloadMisread | src/hokora/protocol/link_manager.py:146-180 | a framed sync message is taken for an epoch frame if and only if its payload has 8192 to 8959 bytes |
| EpochCrypto.KeyMaterialInjective | src/hokora/federation/epoch_crypto.py:30-60 | derived key bytes are equal exactly when secret, epoch and direction are |
| EpochManager.PersistLoadRoundTrip | src/hokora/federation/epoch_manager.py:342-437 | a restart from the row of an active manager restores every field but the overlap key and the pending exchange, or an inactive manager when a key does not unwrap |
| EpochManager.SecureErase | src/hokora/federation/epoch_crypto.py:119-130 | the buffer is all zeros afterwards |
| EpochManager.EpochLink.constructor | src/hokora/federation/epoch_manager.py:46-81 | a new manager is inactive at epoch 0 and has retired no buffer |
| EpochManager.EpochLink.CreateEpochRotate | src/hokora/federation/epoch_manager.py:88-111 | only the pending private key changes, and the frame names the next epoch and the current chain hash |
| EpochManager.EpochLink.RetireKeys | src/hokora/federation/epoch_manager.py:202-237 | the old send and previous-receive buffers are zeroed and recorded as retired, the receive buffer lives on untouched |
| EpochManager.EpochLink.InstallKeys | src/hokora/federation/epoch_manager.py:225-237 | new keys go into vacated slots, the counter starts over and no live buffer is a retired one |
| EpochManager.EpochLink.ActivateEpoch | src/hokora/federation/epoch_manager.py:202-237 | the new state is the activated one, live buffers stay distinct from each other and from every retired, zeroed buffer |
| EpochManager.EpochLink.DeriveBuffers | src/hokora/federation/epoch_crypto.py:30-60 | two distinct new buffers hold the two directional keys |
| EpochManager.EpochLink.HandleEpochRotate | src/hokora/federation/epoch_manager.py:113-163 | success strictly raises the epoch and retires exactly the superseded buffers; each error leaves everything unchanged |
| EpochManager.EpochLink.HandleEpochRotateAck | src/hokora/federation/epoch_manager.py:165-200 | success activates with the pending key whatever epoch the ack names; each error leaves everything unchanged |
| EpochManager.EpochLink.EncryptFrame | src/hokora/federation/epoch_manager.py:239-253 | the frame carries the nonce of the old counter, which goes up by one; inactive or overflowed managers refuse |
| EpochManager.EpochLink.DecryptFrame | src/hokora/federation/epoch_manager.py:255-277 | current or previous key by epoch; a success under the current key leaves no previous buffer, and the one there was is zeroed and retired |
| EpochManager.EpochLink.LoadKeys | src/hokora/federation/epoch_manager.py:379-437 | a present key column arrives in a new buffer, or clears the field when it does not unwrap; an absent one leaves it alone |
| EpochManager.EpochLink.LoadFields | src/hokora/federation/epoch_manager.py:394-437 | epoch, duration, nonce prefix, counter and chain hash come from the row, keys stay |
| EpochManager.EpochLink.LoadState | src/hokora/federation/epoch_manager.py:379-437 | the row overrides the state and retires nothing: replaced buffers are dropped without being erased |
| EpochManager.EpochLink.ReleaseKeys | src/hokora/federation/epoch_manager.py:439-455 | buffers already zeroed are let go and recorded as retired |
| EpochManager.EpochLink.TearDown | src/hokora/federation/epoch_manager.py:439-455 | every buffer still held is zeroed and retired |
| EpochAgreement.RotateKeepsInv | src/hokora/federation/epoch_manager.py:88-111 | a rotate or a retry with a fresh key keeps the two-party invariant |
| EpochAgreement.HandleKeepsInv | src/hokora/federation/epoch_manager.py:113-163 | a rotate frame handled at any later time, accepted or refused, keeps it |
| EpochAgreement.AcceptedRotate | src/hokora/federation/epoch_manager.py:130-150 | the responder accepts a rotate only from the epoch both ends share |
| EpochAgreement.AckMirrors | src/hokora/federation/epoch_manager.py:165-200 | an ack that answers the latest rotate is of the responder's last acceptance and brings the initiator to its epoch |
| EpochAgreement.AckKeepsInv | src/hokora/federation/epoch_manager.py:165-200 | an ack that answers the latest rotate is accepted and mirrors the keys |
| EpochAgreement.DataKeepsInv | src/hokora/federation/epoch_manager.py:239-277 | encrypting and decrypting on either side, frames in any order, keeps it |
| EpochAgreement.StepKeepsInv | src/hokora/federation/epoch_manager.py:88-277 | every step of the pair and the network under the ack hypothesis keeps the invariant |
| EpochAgreement.RunKeepsInv | src/hokora/federation/epoch_manager.py:88-277 | so does every run |
| EpochAgreement.Agreement | src/hokora/federation/epoch_manager.py:88-237 | after any run over a reordering, duplicating, lossy network the responder is at the same epoch with mirrored keys and equal chain hash, or one ahead with the initiator's send key as its live previous key |
| EpochAgreement.ChainMatchesIff | src/hokora/federation/epoch_manager.py:165-200 | an ack answers the latest rotate if and only if its chain hash is the one the initiator would derive with its pending key |
| EpochAgreement.AckAgreesIffChainMatches | src/hokora/federation/epoch_manager.py:165-200 | for any ack ever sent, processing it makes the ends agree if and only if it passes that chain-hash test, which the handler leaves out |
| EpochAgreement.AheadIsApart | src/hokora/federation/epoch_manager.py:113-163 | while the responder is ahead no rotate sent so far would be accepted and the initiator cannot read what the responder sends |
| EpochAgreement.LateAckStaysApart | src/hokora/federation/epoch_manager.py:165-200 | an ack that does not answer the pending exchange, however late, leaves the ends apart |
| EpochAgreement.ApartStep | src/hokora/federation/epoch_manager.py:88-277 | every step except an answering ack keeps the ends apart and the responder at its epoch |
| EpochAgreement.RetryWedges | src/hokora/federation/epoch_manager.py:297-326 | a retry after the responder has switched leaves no ack that could complete the exchange |
| EpochAgreement.LateAckDiverges | src/hokora/federation/epoch_manager.py:165-200 | the late ack of the crossed rotate is accepted all the same and takes the initiator to the same epoch with other keys and another chain hash |
| EpochAgreement.WedgedStep | src/hokora/federation/epoch_manager.py:88-277 | no step, late acks included, leaves that state or moves the responder |
| EpochAgreement.WedgedForever | src/hokora/federation/epoch_manager.py:88-277 | in no continuation, late acks included, does the responder change epoch or do the ends agree again |
| EpochAgreement.RecoversIff | src/hokora/federation/epoch_manager.py:88-277 | while the responder is ahead some continuation brings the ends together if and only if an ack ever sent answers the pending exchange |
| EpochAgreement.FreshChain | src/hokora/federation/epoch_crypto.py:63-65 | a key derived with a new private key gives a chain hash not seen before |
| EpochAgreement.PartedAck | src/hokora/federation/epoch_manager.py:165-200 | once the chains have parted any ack gives the initiator keys nobody else has |
| EpochAgreement.PartedRotate | src/hokora/federation/epoch_manager.py:113-163 | and the responder accepts at most a rotate of an exchange the initiator has given up |
| EpochAgreement.PartedStep | src/hokora/federation/epoch_manager.py:88-277 | so no step joins parted chains |
| EpochAgreement.PartedForever | src/hokora/federation/epoch_manager.py:88-277 | nor does any continuation |
| EpochAgreement.WrongAckParts | src/hokora/federation/epoch_manager.py:165-200 | an ack accepted against the chain-hash test parts the chains, whether the responder is ahead or the ends are in step |
| EpochAgreement.AckDecides | src/hokora/federation/epoch_manager.py:165-200 | after an ack some continuation has the ends agree if and only if the ack passed the chain-hash test |
| EpochAgreement.WedgeReached | src/hokora/federation/epoch_manager.py:297-326 | a concrete run from the start ends wedged with its ack still to come |
| EpochAgreement.WedgeIsReal | src/hokora/federation/epoch_manager.py:165-200 | there the late ack is accepted, fails the chain-hash test, and in no continuation do the ends agree |
| EpochAgreement.RestartKeepsInv | src/hokora/federation/epoch_manager.py:342-437 | an initiator that restarts from its saved row keeps the invariant and agreement |
| EpochAgreement.RestartedRotateIff | src/hokora/federation/epoch_manager.py:342-437 | its next rotate is accepted exactly when the responder is not ahead, and the ack to it mirrors the keys |
| EpochAgreement.RestartedResponder | src/hokora/federation/epoch_manager.py:342-437 | a responder that restarts in step stays mirrored and accepts the next rotate |
| EpochDelivery.StepKeepsBase | src/hokora/federation/epoch_manager.py:88-277 | every step of the ordered link is a step of the two-party network |
| EpochDelivery.StepKeepsForward | src/hokora/federation/epoch_manager.py:202-277 | every step keeps each data frame in flight to the responder decryptable on arrival |
| EpochDelivery.StepKeepsBackward | src/hokora/federation/epoch_manager.py:202-277 | without a lost ack every step keeps frames to the initiator behind the ack that opens their epoch |
| EpochDelivery.HeadIsCurrent | src/hokora/federation/epoch_manager.py:255-277 | the data frame about to reach the initiator is of its current epoch |
| EpochDelivery.RunKeepsInv | src/hokora/federation/epoch_manager.py:88-277 | the delivery invariant holds in every run |
| EpochDelivery.ForwardDelivery | src/hokora/federation/epoch_manager.py:202-277 | in every run, whatever was lost and however many rotations passed, a data frame that reaches the responder decrypts to its plaintext |
| EpochDelivery.BackwardDelivery | src/hokora/federation/epoch_manager.py:202-277 | the same towards the initiator in every run that lost no ack |
| EpochDelivery.StepIsNetStep | src/hokora/federation/epoch_manager.py:88-277 | every step of the link is a step of the network, or none |
| EpochDelivery.NoNewAcks | src/hokora/federation/epoch_manager.py:113-163 | while the ends are apart the responder sends no further ack |
| EpochDelivery.CutOffStep | src/hokora/federation/epoch_manager.py:113-277 | once no ack in flight answers the pending exchange no step changes that, late acks included |
| EpochDelivery.ApartIsRefused | src/hokora/federation/epoch_manager.py:239-277 | what the responder encrypts while the ends are apart the initiator refuses |
| EpochDelivery.LostAckIsFinal | src/hokora/federation/epoch_manager.py:113-277 | from then on, whatever acks arrive late, the responder keeps its epoch, the ends never agree and everything the responder encrypts is refused |
| EpochDelivery.DropCutsOff | src/hokora/federation/epoch_manager.py:113-200 | losing any single ack of a run leads to that state |
| EpochDelivery.AckInFlight | src/hokora/federation/epoch_manager.py:113-163 | a concrete run from the start has an ack in flight |
| EpochDelivery.LossIsReal | src/hokora/federation/epoch_manager.py:113-277 | dropping it there, in no continuation do the ends agree or is the responder read |
| EpochNonces.NoncesDistinct | src/hokora/federation/epoch_crypto.py:73-75 | one prefix with two counters below the overflow mark gives two nonces |
| EpochNonces.Fits | src/hokora/federation/epoch_crypto.py:73-75 | a counter below the overflow mark fits the eight-byte field |
| EpochNonces.SealIsNew | src/hokora/federation/epoch_manager.py:239-253 | the key and nonce of the next encryption are not in the log of the run |
| EpochNonces.StepKeepsInv | src/hokora/federation/epoch_manager.py:88-437 | rotations, acks, encryptions, saves, reloads and restarts keep the log free of repeats |
| EpochNonces.RunKeepsInv | src/hokora/federation/epoch_manager.py:88-437 | so does every run |
| EpochNonces.NoncesNeverReused | src/hokora/federation/epoch_manager.py:225-253 | in every run whose reloads use a current snapshot no key and nonce pair is used twice and every nonce is well formed |
| EpochNonces.ReloadReusesIffStale | src/hokora/federation/epoch_orchestrator.py:181-192 | encrypting after a reload repeats an earlier pair if and only if something was encrypted under the saved key since the save |
| EpochNonces.StaleReached | src/hokora/federation/epoch_orchestrator.py:181-192 | a concrete run from the start saves and then encrypts |
| EpochNonces.ReuseIsReal | src/hokora/federation/epoch_manager.py:379-437 | reloading there, the next encryption repeats a key and nonce of the run |
| EpochOverlap.TwoGenerations | src/hokora/federation/epoch_manager.py:202-277 | after any frames, loads and teardowns a manager holds the keys installed last, the receive key before those until a frame of the current epoch was read, and no others |
| EpochOverlap.ReadableIff | src/hokora/federation/epoch_manager.py:255-277 | exactly which data frames it can read |
| EpochOverlap.SealableIff | src/hokora/federation/epoch_manager.py:239-253 | exactly when it encrypts, with the frames of a generation numbered from zero |
| EpochOverlap.InstallsPrefix | src/hokora/federation/epoch_manager.py:225-237 | new keys come with the nonce prefix drawn for them and a zero counter |
| EpochOverlap.TornDown | src/hokora/federation/epoch_manager.py:439-455 | after a teardown nothing is encrypted, read or completed |
| EpochOverlap.LoadTakes | src/hokora/federation/epoch_manager.py:379-437 | a load takes every column; keys not saved stay, keys that do not unwrap go |
| EpochOverlap.ReadingCloses | src/hokora/federation/epoch_manager.py:266-271 | once a frame of the current epoch was read, nothing opens until the next activation that is not of that epoch and under its key |
| EpochForgery.RotateAuthentic | src/hokora/federation/epoch_manager.py:118-131 | the responder accepts a rotate only if the initiator sent exactly that frame |
| EpochForgery.AckAuthentic | src/hokora/federation/epoch_manager.py:165-185 | the initiator accepts an ack only if the responder sent exactly that frame |
| EpochForgery.DataAuthentic | src/hokora/federation/epoch_manager.py:255-277 | what an end reads the other end has sent |
| EpochForgery.StruckKeepsInv | src/hokora/federation/epoch_manager.py:113-277 | any frame whatever, short of a forged signature or ciphertext, keeps the two-party invariant |
| EpochForgery.AgreementUnderAttack | src/hokora/federation/epoch_manager.py:88-277 | agreement holds in every run on a network where anyone may send anything else, and what the responder reads the initiator encrypted |
| MessageNode.Node.constructor | src/hokora/core/message.py:87-102 | a node starts with its channels and no message |
| MessageNode.Node.IncrementSeq | src/hokora/db/queries.py:164-186 | takes the next number of the channel or reports that it does not exist |
| MessageNode.Node.IncrementThreadSeq | src/hokora/core/sequencer.py:55-81 | takes the next number of the thread, from the thread row if there is one |
| MessageNode.Node.UpdateThreadMetadata | src/hokora/core/message.py:316-352 | creates or updates the thread row and its participant list |
| MessageNode.Node.InsertRow | src/hokora/db/queries.py:31-34 | inserts a row unless its hash is taken |
| MessageNode.Node.EditMessage | src/hokora/core/message.py:370-426 | author, channel, size, chain and sealing checks in order, then the new body, the chain entry and the edit row |
| MessageNode.Node.DeleteMessage | src/hokora/core/message.py:428-449 | marks the target deleted or fails without a change |
| MessageNode.Node.PinMessage | src/hokora/core/message.py:451-499 | toggles the pin and stores a system row with the next number |
| MessageNode.Node.AddReaction | src/hokora/core/message.py:501-537 | adds the identity to the emoji of the target, with the cap on stored identities |
| MessageNode.Node.StoreMessage | src/hokora/core/message.py:202-302 | seals, numbers and inserts a new message or thread reply |
| MessageNode.Node.IngestInTransaction | src/hokora/core/message.py:202-302 | dispatches on the kind of message after the shared checks |
| MessageNode.Node.IngestLocal | src/hokora/core/message.py:202-302 | one transaction: an error anywhere leaves the tables as they were |
| MessageNode.Node.InsertRemote | src/hokora/federation/mirror_ingestor.py:100-151 | a remote row passes the seal check before it takes a number |
| MessageNode.Node.IngestMirrored | src/hokora/federation/mirror_ingestor.py:58-151 | rejects, deduplicates or stores a mirrored message in one transaction |
| MessageNode.Node.ReceivePush | src/hokora/protocol/handlers/federation.py:210-356 | the loop over a pushed batch yields the outcome of the batch, or undoes all of it |
| MessageNumbering.ReplyCounts | src/hokora/core/sequencer.py:55-81 | both counters of a thread move together by one |
| MessageNumbering.StoreNewGrows | src/hokora/core/message.py:202-302 | storing a message adds one row with the next number of its timeline or thread |
| MessageNumbering.IngestGrows | src/hokora/core/message.py:202-537 | every local ingest adds at most one numbered row and renumbers none |
| MessageNumbering.RemoteGrows | src/hokora/federation/mirror_ingestor.py:100-151 | storing a remote message adds one row with the next local number |
| MessageNumbering.MainIsOldOrNext | src/hokora/core/sequencer.py:46-53 | a number on the main timeline after a step was there before or is the next one |
| MessageNumbering.ReplyIsOldOrNext | src/hokora/core/sequencer.py:55-81 | the same for thread numbers |
| MessageNumbering.GrowsKeepsNumbered | src/hokora/core/sequencer.py:46-81 | a step keeps every number naming one row and both thread counters equal |
| MessageNumbering.GrowsKeepsDense | src/hokora/core/sequencer.py:46-81 | a step keeps the numbers exactly one to the latest |
| MessageNumbering.GrowsNeverReuses | src/hokora/core/sequencer.py:46-81 | a step gives no issued number to another message |
| MessageNumbering.PushKeepsGood | src/hokora/protocol/handlers/federation.py:210-356 | a pushed batch keeps all three |
| MessageNumbering.StepKeepsGood | src/hokora/core/message.py:202-537 | so does every event of a node |
| MessageNumbering.PruneKeepsGood | src/hokora/db/maintenance.py:23-117 | pruning keeps numbering and never frees a number for reuse |
| MessageNumbering.TimelinesStayNumbered | src/hokora/core/sequencer.py:46-81 | from an empty node and any events each number names one row; before any pruning the numbers are exactly 1 to latest_seq and 1 to reply_count |
| MessageNumbering.NumbersNeverReused | src/hokora/db/queries.py:164-186 | from any well-numbered database no run gives an issued number to another message, pruning included |
| MessageContent.EditKeepsClean | src/hokora/core/message.py:370-426 | an edit keeps sealed rows free of plaintext and chains within fifty entries |
| MessageContent.ReactionKeepsClean | src/hokora/core/message.py:501-537 | a reaction keeps the stored identities within twenty |
| MessageContent.IngestKeepsClean | src/hokora/security/sealed_invariant.py:29-52 | local ingest seals what it stores in a sealed channel |
| MessageContent.RemoteKeepsClean | src/hokora/security/sealed_invariant.py:55-77 | a remote row in a sealed channel carries no plaintext |
| MessageContent.StepKeepsClean | src/hokora/security/sealed_invariant.py:29-77 | every event keeps these bounds |
| MessageContent.SealedAtRest | src/hokora/security/sealed_invariant.py:29-77 | in every run no row of a sealed channel holds a plaintext body and chains and lists stay bounded |
| MessageContent.ReactionTally | src/hokora/core/message.py:501-537 | the list is the first twenty different reactors and the count is the different reactors plus every recount |
| MessageContent.ReactionCountExact | src/hokora/core/message.py:501-537 | the stored count is the number of different reactors if and only if nobody beyond the first twenty reacts again |
| MessageContent.RecountExample | src/hokora/core/message.py:501-537 | with more than twenty reactors, the last reacting again is counted twice |
| MessageContent.PushTwice | src/hokora/protocol/handlers/federation.py:210-356 | pushing a stored batch again changes nothing and acknowledges only the pusher's own numbers |
| MessageFidelity.SealingSays | src/hokora/security/sealed_invariant.py:29-52 | what is stored is the text, or in a sealed channel its ciphertext alone, and fails exactly without a key |
| MessageFidelity.PostAcceptedIff | src/hokora/core/message.py:202-302 | exactly which posts are accepted |
| MessageFidelity.PostStored | src/hokora/core/message.py:202-302 | a new post is stored with its channel, author, kind, target and words; a known one changes nothing |
| MessageFidelity.MainStored | src/hokora/core/message.py:246-293 | off a thread it takes the channel's next number |
| MessageFidelity.ReplyStored | src/hokora/core/message.py:240-293 | in a thread it takes the thread's next number and counts, and its author is listed once |
| MessageFidelity.ThreadUpdated | src/hokora/core/message.py:316-352 | one more reply and the author listed once, other threads untouched |
| MessageFidelity.EditAcceptedIff | src/hokora/core/message.py:370-426 | exactly which edits are accepted: by the author, in the channel, at most fifty |
| MessageFidelity.EditStored | src/hokora/core/message.py:370-426 | the target says the new text and lists the edit, which has a row of its own; nothing else changes |
| MessageFidelity.DeleteAcceptedIff | src/hokora/core/message.py:428-450 | exactly which deletes are accepted |
| MessageFidelity.DeleteStored | src/hokora/db/queries.py:105-113 | the target loses its text and is marked; nothing else changes |
| MessageFidelity.PinAcceptedIff | src/hokora/core/message.py:451-499 | exactly which pins are accepted |
| MessageFidelity.PinStored | src/hokora/core/message.py:451-499 | the pin is flipped and a numbered system message says which way |
| MessageFidelity.ReactionAcceptedIff | src/hokora/core/message.py:501-537 | exactly which reactions are accepted |
| MessageFidelity.ReactionStored | src/hokora/core/message.py:501-537 | one more reactor under that emoji of the target, nobody twice; nothing else changes |
| MessageFidelity.MirrorAcceptedIff | src/hokora/federation/mirror_ingestor.py:58-151 | exactly which mirrored messages are taken: size, author, time, signature and sealing |
| MessageFidelity.MirrorStored | src/hokora/federation/mirror_ingestor.py:100-151 | stored with author, kind and words, under the name of the peer; a known one changes nothing |
| MessageFidelity.OneStored | src/hokora/protocol/handlers/federation.py:247-341 | a pushed message is known, turned away or stored, and listed accordingly |
| MessageFidelity.BatchStored | src/hokora/protocol/handlers/federation.py:247-341 | a batch adds only rows of its own welcome messages, with their words, and changes none |
| MessageFidelity.PushAcceptedIf | src/hokora/protocol/handlers/federation.py:224-236 | only trusted peers push, and into an existing channel nothing else fails |
| MessageFidelity.PruneStored | src/hokora/db/maintenance.py:23-117 | pruning takes exactly the rows named, or fails on the root of a thread |
| MessageFidelity.WordsKept | src/hokora/core/message.py:202-537 | in every run a row keeps its words until an edit or delete names it or it is pruned |
| MessageFidelity.LastWordsStand | src/hokora/core/message.py:202-426 | so a post says what its author sent, and after an edit what the author sent last |
| FederationPush.FederationPusher.constructor | src/hokora/federation/pusher.py:24-48 | a pusher starts at cursor 0 without failures |
| FederationPush.FederationPusher.PushPending | src/hokora/federation/pusher.py:73-170 | sends exactly the pushable part of the batch; only a batch with nothing to push moves the cursor; failures are counted |
| FederationPush.FederationPusher.HandlePushAck | src/hokora/federation/pusher.py:172-184 | the cursor becomes the highest acknowledged number, never a lower one |
| FederationPush.HistoryIsGapless | src/hokora/db/queries.py:40-67 | a batch holds every stored message between the cursor and its own last number |
| FederationPush.HistoryIsExhaustive | src/hokora/db/queries.py:40-67 | a batch is empty only when nothing is stored above the cursor |
| FederationPush.ToPushFilters | src/hokora/federation/pusher.py:97-107 | what is sent is exactly what does not come from the peer and is anonymous or by an author who is not banned |
| FederationPush.HistoryOrigins | src/hokora/db/queries.py:40-67 | a fetched message carries the author and the origin of its row |
| FederationPush.HistoryInSequence | src/hokora/db/queries.py:40-67 | a batch comes in ascending order |
| FederationPush.ToPushInSequence | src/hokora/federation/pusher.py:97-107 | what is pushed of it keeps that order |
| FederationPush.StepSource | src/hokora/federation/mirror_ingestor.py:100-151 | a message taken from a peer is recorded as coming from it in every step |
| FederationPush.StepKeepsPushInv | src/hokora/federation/pusher.py:73-184 | every store, push, loss, ban change and genuine ack keeps the cursor honest and never lowers it |
| FederationPush.RunKeepsPushInv | src/hokora/federation/pusher.py:73-184 | so does every run |
| FederationPush.AtLeastOnce | src/hokora/federation/pusher.py:73-184 | in every run each stored message at or below the cursor, by hash and number, was sent or filtered; nothing sent had come from the peer or was by an author banned at the time, and nothing else was filtered |
| FederationPush.RoundKeepsReady | src/hokora/federation/pusher.py:73-184 | an acknowledged round keeps the cursor honest and never lowers it |
| FederationPush.RoundAdvances | src/hokora/federation/pusher.py:73-184 | an acknowledged round moves the cursor up unless nothing is left above it |
| FederationPush.RoundsDrain | src/hokora/federation/pusher.py:73-184 | enough acknowledged rounds leave nothing stored above the cursor |
| FederationPush.AckSafeIff | src/hokora/federation/pusher.py:172-184 | an ack with any numbers keeps the promise if and only if nothing is stored between the highest number fetched and the highest acknowledged |
| FederationPush.SkippedForever | src/hokora/federation/pusher.py:73-184 | a number passed over unsent is never sent in any continuation |
| FederationPush.ReceiverNumbers | src/hokora/protocol/handlers/federation.py:301-341 | a receiver acknowledges the pusher's number for known messages and its own new number for stored ones |
| FederationPush.DeployedAckSafeIff | src/hokora/protocol/handlers/federation.py:320-341 | with the receiver as written, an ack keeps the promise if and only if nothing new was stored or the receiver's latest number passes no unfetched message |
| FederationPush.LossExample | src/hokora/protocol/handlers/federation.py:320-341 | a run of two nodes from empty tables after which an acknowledged push skips a message |
| FederationRounds.NothingReceivedIff | src/hokora/protocol/handlers/federation.py:244-341 | a push acknowledges nothing if and only if every message of it is refused, and then it stores nothing |
| FederationRounds.KnownIsReceived | src/hokora/protocol/handlers/federation.py:247-253 | a message the receiver holds is acknowledged with the sender's number |
| FederationRounds.BlockedRound | src/hokora/federation/pusher.py:172-184 | a batch refused whole leaves sender and receiver as they were |
| FederationRounds.KnownRoundMoves | src/hokora/federation/pusher.py:172-184 | a round moves the cursor when the receiver holds a message of the batch |
| FederationRounds.MovesInTwo | src/hokora/federation/pusher.py:73-184 | unless the batch is refused whole, two rounds move the cursor |
| FederationRounds.BlockedForever | src/hokora/federation/pusher.py:73-184 | a batch refused whole stays in front in every later round |
| FederationRounds.Progress | src/hokora/federation/pusher.py:73-184 | without such a batch every two rounds move the cursor on, until nothing is left |
| FederationRounds.DrainsIff | src/hokora/federation/pusher.py:73-184 | with the receiver as written the rounds reach the end of the table if and only if none meets a batch that is refused whole |
| FederationRounds.EmptyIff | src/hokora/db/queries.py:40-67 | the end of the table is where nothing is stored above the cursor |
| FederationRounds.BlockedExample | src/hokora/protocol/handlers/federation.py:255-263 | a node with one message and a receiver that bans its author are blocked in every round |
| MirrorLink.RunKeepsOwner | src/hokora/federation/mirror.py:132-278 | every thread step keeps one owner of the connection attempt or link |
| MirrorLink.TouchRetries | src/hokora/federation/mirror.py:199-241 | a thread that cancels, replaces or forgets another's timer leaves a retry behind |
| MirrorLink.RetryIsKept | src/hokora/federation/mirror.py:199-241 | a step of a parked, running mirror leaves a timer or a thread that will retry |
| MirrorLink.ParkingRetries | src/hokora/federation/mirror.py:175-197 | parking always comes with a thread that schedules the retry |
| MirrorLink.StepKeepsInv | src/hokora/federation/mirror.py:126-278 | every interleaved step, overtaking callbacks included, keeps the invariant |
| MirrorLink.AtMostOneLinkNeverStalled | src/hokora/federation/mirror.py:126-278 | in every interleaving there is at most one live link and a running parked mirror has an armed timer or a thread about to connect or schedule |
| MirrorLink.ThreadReconnects | src/hokora/federation/mirror.py:132-241 | a retrying thread of a parked mirror can run to a new connection attempt |
| MirrorLink.CanAlwaysReconnect | src/hokora/federation/mirror.py:126-278 | from every reachable parked state of a running mirror some schedule reconnects |
| MirrorLink.GhostsIff | src/hokora/federation/mirror.py:251-273 | a step strands the mirror (linked, with no live link and none being built) exactly when it runs an established callback while the mirror is neither connecting nor linked, and no step frees it |
| MirrorLink.GhostedIff | src/hokora/federation/mirror.py:251-278 | a run from the start ends stranded if and only if it contains such a late callback |
| MirrorLink.GhostedForever | src/hokora/federation/mirror.py:132-278 | a stranded mirror never connects again |
| MirrorLink.OrderedNeverGhosts | src/hokora/federation/mirror.py:251-278 | no run in which each link's closed callback follows its established callback strands the mirror |
| MirrorLink.OvertakingGhosts | src/hokora/federation/mirror.py:251-273 | a concrete run from the start in which the overtaking closed callback strands the mirror |
| MirrorLink.StoppedForGood | src/hokora/federation/mirror.py:132-249 | once stopped a mirror never starts an attempt again |
| MirrorLink.StoppedBuildsNothing | src/hokora/federation/mirror.py:132-249 | and with no attempt under way it never builds another link |
| MirrorTimers.StoppedArmsNothing | src/hokora/federation/mirror.py:199-249 | a stopped mirror sets no thread on its way to arm a timer |
| MirrorTimers.StoppedEnds | src/hokora/federation/mirror.py:132-278 | it ends every thread at the check that the mirror runs |
| MirrorTimers.UnknownWaits | src/hokora/federation/mirror.py:132-197 | an attempt without a known identity parks the mirror waiting and schedules a retry |
| MirrorTimers.FailureCloses | src/hokora/federation/mirror.py:150-170 | one whose link cannot be built parks it closed and schedules a retry |
| MirrorTimers.SuccessStores | src/hokora/federation/mirror.py:150-173 | one whose link is built stores it and stays connecting |
| MirrorTimers.WakeIsIdle | src/hokora/federation/mirror.py:222-232 | a wake-up leaves a mirror that is not parked alone |
| MirrorTimers.WakeConnects | src/hokora/federation/mirror.py:222-241 | on a parked, running one its own thread cancels and forgets the timer and starts an attempt |
| MirrorTimers.LostReference | src/hokora/federation/mirror.py:209-220 | a scheduling thread that finds the timer gone or started dies without a trace |
| MirrorTimers.Creates | src/hokora/federation/mirror.py:203-218 | undisturbed it cancels the old timer and refers to a new one |
| MirrorTimers.Starts | src/hokora/federation/mirror.py:218-220 | and arms it |
| MirrorTimers.StopForgets | src/hokora/federation/mirror.py:243-249 | the rest of stop cancels the timer and forgets it |
| MirrorTimers.CancelledIsOver | src/hokora/federation/mirror.py:203-239 | cancelling ends a timer, whether it has been started or not |
| MirrorTimers.OverForGood | src/hokora/federation/mirror.py:199-278 | a timer that was cancelled or has fired never fires again |
| MirrorTimers.OneTimerArmed | src/hokora/federation/mirror.py:199-249 | as long as no two threads swap timers at once at most one is ever armed |
| ZombieBuffer.RecordRetains | src/hokora/protocol/zombie_link_buffer.py:57-74 | append, cap and trim turn the promise for a history into the promise for one more push |
| ZombieBuffer.TrimHead | src/hokora/protocol/zombie_link_buffer.py:72-74 | pops exactly the stale entries at the head |
| ZombieBuffer.PushBuffer.constructor | src/hokora/protocol/zombie_link_buffer.py:36-48 | an empty buffer for every link |
| ZombieBuffer.PushBuffer.Record | src/hokora/protocol/zombie_link_buffer.py:57-74 | the buffer of the link stays the last cap entries among its pushes no older than the retention at the latest |
| ZombieBuffer.PushBuffer.Drain | src/hokora/protocol/zombie_link_buffer.py:76-82 | hands over exactly what is retained, oldest first, and forgets the link |
| LivePush.LiveManager.constructor | src/hokora/protocol/live.py:33-52 | nothing subscribed, sent or deferred |
| LivePush.LiveManager.Subscribe | src/hokora/protocol/live.py:54-104 | accepted exactly when already subscribed or below both limits, never for MINIMAL; at most 100 per channel and 500 in total stay subscribed |
| LivePush.LiveManager.UnsubscribeAll | src/hokora/protocol/live.py:114-120 | no list mentions the link and empty channels go |
| LivePush.LiveManager.Send | src/hokora/protocol/live.py:299-308 | a sent event is on the wire once and in the link's buffer |
| LivePush.LiveManager.QueueFor | src/hokora/protocol/live.py:287-297 | the event joins the link's buffer for the channel, which is always the newest thousand queued for it |
| LivePush.AddToBatch | src/hokora/protocol/live.py:287-297 | appends and keeps the newest thousand |
| LivePush.LiveManager.DeferForDeadLink | src/hokora/protocol/live.py:246-262 | the event goes to the hook once, or is dropped exactly when there is no hook or identity |
| LivePush.LiveManager.OfferTo | src/hokora/protocol/live.py:264-317 | one event and one subscriber give exactly one verdict |
| LivePush.LiveManager.OfferAll | src/hokora/protocol/live.py:264-317 | every target is offered the event once, in order, and the dead set is the targets whose send failed |
| LivePush.LiveManager.PushTo | src/hokora/protocol/live.py:264-317 | the subscriptions afterwards are the old ones without exactly the dead targets |
| LivePush.LiveManager.PushEvent | src/hokora/protocol/live.py:207-214 | every subscriber of the channel is offered the event once, and only those whose link died lose their subscriptions |
| LivePush.LiveManager.PushSealed | src/hokora/protocol/live.py:152-205 | every subscriber is offered the message once, as plaintext or as ciphertext by its capability, and only the dead lose their subscriptions |
| LivePush.LiveManager.Replay | src/hokora/protocol/live.py:228-240 | each entry goes to the hook once, in order, if there is a hook and an identity |
| LivePush.LiveManager.DrainAndReplay | src/hokora/protocol/live.py:222-244 | what the buffer retains goes to the hook once, oldest first |
| LivePush.LiveManager.HandleLinkDeath | src/hokora/protocol/live.py:222-244 | replay as above, and the tables lose the subscriptions, identity, capability and buffer of this link and nothing else |
| LivePush.AdmitsIff | src/hokora/protocol/live.py:54-104 | exactly who is admitted |
| LivePush.AdmittedStores | src/hokora/protocol/live.py:54-104 | an admitted link is listed with its profile, a refused one is not added, and nobody else is affected |
| LivePush.AdmittedIsBounded | src/hokora/protocol/live.py:54-104 | admission keeps both subscriber limits |
| LivePush.PurgedIsBounded | src/hokora/protocol/live.py:114-120 | purging keeps them and forgets the link |
| LivePush.HandedOnce | src/hokora/protocol/live.py:264-317 | a push hands its event to each identified subscriber outside BATCHED exactly once, as a packet or through the hook, unless the link is up and PRIORITIZED skips it |
| LivePush.QueuedOnce | src/hokora/protocol/live.py:287-297 | a BATCHED subscriber with its link up is sent and deferred nothing, and has the event queued once |
| LivePush.DeferredIff | src/hokora/protocol/live.py:246-317 | exactly when an event is deferred and when it is dropped |
| LivePush.DropDead | src/hokora/protocol/live.py:314-317 | the unsubscribe loop removes exactly the dead links |
| LivePush.SentKeeps | src/hokora/protocol/live.py:216-220 | a sent event keeps the buffers equal to what was sent since the last death |
| LivePush.DeathKeeps | src/hokora/protocol/live.py:222-244 | so does a link death |
| CdspSession.DeferAllIs | src/hokora/protocol/sync_utils.py:337-348 | an uninterrupted queue holds the newest limit items, or all of them for a limit below two |
| CdspSession.QueueBoundedIff | src/hokora/db/queries.py:575-600 | the queue stays within its limit for every sequence of deferrals if and only if the limit is at least two |
| CdspSession.FindActive | src/hokora/db/queries.py:472-484 | finds an active session of the identity exactly when there is one |
| CdspSession.FlushInOrder | src/hokora/db/queries.py:550-565 | a flush keeps every session's items handed over at most once and in enqueue order |
| CdspSession.DeferInOrder | src/hokora/protocol/sync_utils.py:337-348 | so does a deferral with its eviction |
| CdspSession.ForgetInOrder | src/hokora/db/queries.py:509-526 | so does forgetting expired sessions |
| CdspSession.DropExpiredIs | src/hokora/db/queries.py:602-613 | the item sweep drops exactly the expired items |
| CdspSession.WiderIff | src/hokora/protocol/session.py:160-166 | the order of the four profiles by sync limit |
| CdspSession.SecondSweepIsNoop | src/hokora/protocol/session.py:212-218 | after the session sweep the item sweep finds nothing to remove |
| CdspSession.SessionManager.constructor | src/hokora/protocol/session.py:52-56 | no sessions |
| CdspSession.SessionManager.Flush | src/hokora/db/queries.py:550-565 | returns the whole queue oldest first and empties it |
| CdspSession.SessionManager.HandleSessionInit | src/hokora/protocol/session.py:58-141 | rejects bad versions and profiles unchanged; otherwise resumes exactly on the session's own token or closes it and opens a new one, with every other session and queue unchanged |
| CdspSession.SessionManager.Resume | src/hokora/protocol/session.py:93-113 | same session, new profile, and its queue handed over |
| CdspSession.SessionManager.CloseActive | src/hokora/protocol/session.py:115-118 | the active session of the identity is closed, every other one stays |
| CdspSession.SessionManager.Open | src/hokora/protocol/session.py:120-132 | one new active session, and no other change |
| CdspSession.SessionManager.HandleProfileUpdate | src/hokora/protocol/session.py:147-184 | changes this session only, and flushes its queue exactly when the new profile is wider; the error codes |
| CdspSession.SessionManager.DeferSyncItem | src/hokora/protocol/sync_utils.py:337-348 | dropped without an active session, otherwise queued last |
| CdspSession.SessionManager.Enqueue | src/hokora/protocol/sync_utils.py:337-348 | evicts the oldest of a full queue and queues the item last, other queues untouched |
| CdspSession.SessionManager.Forget | src/hokora/db/queries.py:509-526 | exactly these sessions go, with their queues |
| CdspSession.SessionManager.CleanupExpired | src/hokora/protocol/session.py:212-218 | sessions idle or past their expiry go with their items, the rest is untouched |
| RateLimit.ConsumeByLevel | src/hokora/security/ratelimit.py:29-39 | a token is granted exactly at a level of one or more, and costs one |
| RateLimit.CheckByLevel | src/hokora/security/ratelimit.py:57-75 | what a check decides and leaves behind depends on levels alone, evictions included |
| RateLimit.GrantsAndLevel | src/hokora/security/ratelimit.py:57-75 | grants plus remaining level never exceed the initial level plus the refill |
| RateLimit.GrantsBounded | src/hokora/security/ratelimit.py:29-75 | in any interval of any run an identity gets at most the bucket size plus the refill of the interval |
| RateLimit.EarlySweepOverruns | src/hokora/security/ratelimit.py:118-131 | for a whole number of tokens a periodic sweep at any shorter age has a run that grants more than that |
| RateLimit.PressureOverruns | src/hokora/security/ratelimit.py:60-70 | so has the sweep forced by a full table |
| RateLimit.BoundedIff | src/hokora/security/ratelimit.py:29-131 | for a whole number of tokens no run exceeds the bound if and only if neither sweep forgets a bucket before it would be full |
| RateLimit.EvictionInvisible | src/hokora/security/ratelimit.py:118-131 | with a sweep age that refills a bucket, no decision of any run differs from the limiter that never evicts |
| RateLimit.EarlyEvictionVisible | src/hokora/security/ratelimit.py:118-131 | for a whole number of tokens every shorter age has a run in which a decision differs |
| RateLimit.SlowmodeIff | src/hokora/security/ratelimit.py:77-103 | exactly when a post is let through, limited or turned away for lack of room, and what is remembered |
| RateLimit.NoSlowmode | src/hokora/security/ratelimit.py:84-85 | without a slowmode everything passes |
| RateLimit.SlowmodeHolds | src/hokora/security/ratelimit.py:77-103 | accepted posts are at least the slowmode apart in every run whose slowmodes do not exceed the sweep age |
| RateLimit.LongSlowmodeBreaks | src/hokora/security/ratelimit.py:77-126 | any longer slowmode is broken by one sweep |
| RateLimit.RateLimiter.constructor | src/hokora/security/ratelimit.py:45-55 | no buckets and no stamps |
| RateLimit.RateLimiter.CleanupStale | src/hokora/security/ratelimit.py:118-131 | both tables lose exactly their stale entries |
| RateLimit.RateLimiter.CheckRateLimit | src/hokora/security/ratelimit.py:57-75 | decision and buckets are those of the specification, and stamps are swept only under pressure |
| RateLimit.RateLimiter.TakeToken | src/hokora/security/ratelimit.py:29-39 | refills, then takes a token if there is one |
| RateLimit.RateLimiter.CheckSlowmode | src/hokora/security/ratelimit.py:77-103 | decision and stamps are those of the specification, and buckets are swept only under pressure |
| Crc8.ComputeCrc | src/hokora/security/invite_codes.py:23-34 | the two nested loops compute the checksum |
| Crc8.ShiftXor | src/hokora/security/invite_codes.py:28-33 | one turn of the inner loop is linear |
| Crc8.CrcXor | src/hokora/security/invite_codes.py:23-34 | the checksum of a difference is the difference of the checksums |
| Crc8.CrcAppend | src/hokora/security/invite_codes.py:23-34 | the checksum of a concatenation continues from that of the first part |
| Crc8.ShiftsZero | src/hokora/security/invite_codes.py:28-33 | any number of turns takes only zero to zero |
| Crc8.CodewordIff | src/hokora/security/invite_codes.py:48-50 | data and one byte have checksum zero if and only if the byte is the checksum of the data |
| Crc8.WindowNotDivisible | src/hokora/security/invite_codes.py:23-34 | no non-zero pattern within eight consecutive bits has checksum zero |
| Crc8.BurstDetected | src/hokora/security/invite_codes.py:23-34 | two codewords of any length that agree outside eight consecutive bits are equal |
| InviteCode.EncodedLength | src/hokora/security/invite_codes.py:77-78 | every encoded length pads to a length the decoder accepts and holds exactly the encoded bytes |
| InviteCode.Base32RoundTrip | src/hokora/security/invite_codes.py:52-81 | unpadded Base32 decodes to the bytes it encodes |
| InviteCode.ReplacedChar | src/hokora/security/invite_codes.py:77-81 | one Base32 character replaced changes at most five neighbouring bits of the decoded bytes |
| InviteCode.UngroupGroup | src/hokora/security/invite_codes.py:53-75 | removing hyphens undoes the grouping by fives |
| InviteCode.DecodeEncode | src/hokora/security/invite_codes.py:37-105 | what decoding makes of every encoding, with the two too-short errors |
| InviteCode.RoundTripIff | src/hokora/security/invite_codes.py:37-105 | decoding returns the token and hash encoded if and only if both have sixteen bytes |
| InviteCode.CaseIgnored | src/hokora/security/invite_codes.py:71-75 | lower-casing a code changes nothing about its decoding |
| InviteCode.BlanksIgnored | src/hokora/security/invite_codes.py:71-71 | blanks around a code change nothing about its decoding |
| InviteCode.AcceptedIff | src/hokora/security/invite_codes.py:85-100 | accepted are exactly the strings of at least 33 bytes with checksum zero |
| InviteCode.CheckAfterBurst | src/hokora/security/invite_codes.py:88-96 | any change within eight consecutive bits of a codeword is a checksum mismatch unless nothing changed |
| InviteCode.Mistyped | src/hokora/security/invite_codes.py:37-105 | for any payload, a Base32 character replaced by another of the alphabet gives a checksum mismatch unless only padding bits changed |
| InviteCode.MistypedInvite | src/hokora/security/invite_codes.py:37-105 | for a real invite it is a mismatch unless the character is the last and differs in its lowest bit only, which yields the same invite |
| InviteCode.AnyReplacement | src/hokora/security/invite_codes.py:37-105 | whatever single character of a real invite is replaced, prefix and hyphens included, by whatever ASCII character: an error or the same invite |
| MediaStore.PruneIsShortest | src/hokora/media/storage.py:119-133 | pruning takes exactly the shortest oldest-first run of the channel that frees the bytes, or all of it, and leaves other channels alone |
| MediaStore.PruneFrees | src/hokora/media/storage.py:119-133 | a pruned channel is empty or has the needed bytes less |
| MediaStore.StoreFits | src/hokora/media/storage.py:37-74 | a store never takes a channel or the whole above the larger of its limit and what it held |
| MediaStore.StoreFrame | src/hokora/media/storage.py:37-74 | a store leaves the files of every other channel alone |
| MediaStore.StoreKeepsQuota | src/hokora/media/storage.py:37-74 | every attempt, refused or not, keeps both quotas |
| MediaStore.ChannelRefusalIff | src/hokora/media/storage.py:55-62 | within quota, a file that passes the size and global checks is refused for its channel if and only if it alone exceeds the channel limit |
| MediaStore.RefusalEmptiesChannel | src/hokora/media/storage.py:55-62 | and such a refusal has deleted everything the channel held |
| MediaStore.GetAfterWrite | src/hokora/media/storage.py:71-88 | what is written is read back and no other path changes |
| MediaStore.StoreReadsBack | src/hokora/media/storage.py:37-88 | a file that is not refused reads back with its data |
| MediaStore.StoreKeepsOthers | src/hokora/media/storage.py:37-88 | other channels keep their files, and so does its own channel when nothing has to be pruned |
| MediaStore.StorePrunes | src/hokora/media/storage.py:55-88 | otherwise the channel keeps exactly the files behind the pruned run |
| MediaStore.EarlyRefusals | src/hokora/media/storage.py:45-53 | too large a file, or one for which the disk is full, leaves the disk as it is |
| MediaStore.FilesKept | src/hokora/media/storage.py:37-100 | in every run a path reads the same until it is written, erased or pruned |
| MediaStore.QuotasHold | src/hokora/media/storage.py:37-100 | from a disk within quota every run of stores and deletions stays within both quotas and keeps paths unique |
| MediaStore.MediaStorage.constructor | src/hokora/media/storage.py:24-35 | the upload limit is capped at 50 MiB |
| MediaStore.MediaStorage.ChannelUsage | src/hokora/media/storage.py:102-107 | sums the sizes of the channel's files |
| MediaStore.MediaStorage.GlobalUsage | src/hokora/media/storage.py:109-117 | sums the sizes of all files |
| MediaStore.MediaStorage.DeleteFile | src/hokora/media/storage.py:90-100 | removes that path only, and nothing when there is no such file |
| MediaStore.MediaStorage.PruneOne | src/hokora/media/storage.py:127-133 | deleting the oldest file of the channel leaves the rest of the pruning unchanged |
| MediaStore.MediaStorage.PruneOldest | src/hokora/media/storage.py:119-133 | the deletion loop leaves exactly the specified pruned disk |
| MediaStore.MediaStorage.StoreFile | src/hokora/media/storage.py:37-74 | result and disk are those of the specification, for success and each of the three refusals |
| NonceCache.CacheIsLatest | src/hokora/security/verification.py:38-55 | without sweeps the cache is the last max_size acceptances of the whole run |
| NonceCache.AcceptedIff | src/hokora/security/verification.py:38-55 | an offer is accepted if and only if it is not expired and not among those |
| NonceCache.Remembered | src/hokora/security/verification.py:38-72 | an acceptance outlives fewer than max_size later ones and any sweep that spares its age |
| NonceCache.FollowersDiffer | src/hokora/security/verification.py:38-72 | the first max_size acceptances after an entry are of nonces different from its own and from each other |
| NonceCache.ReplayNeedsFlood | src/hokora/security/verification.py:38-72 | between two acceptances of one nonce at least max_size different other nonces were accepted |
| NonceCache.SweepsAreSafe | src/hokora/security/verification.py:38-72 | with its own timestamp, not from the future, the same holds whatever is swept |
| NonceCache.ClearReopens | src/hokora/security/verification.py:70-72 | after a clear whatever is not expired is accepted |
| NonceCache.SweepIs | src/hokora/security/verification.py:57-68 | a sweep drops the oldest entries as far as they are past the cutoff |
| NonceCache.SweepReopens | src/hokora/security/verification.py:57-68 | a nonce without timestamp is accepted again after one sweep if and only if it is older than the retention |
| NonceCache.EvictOver | src/hokora/security/verification.py:51-54 | popping the oldest while over capacity leaves the last max_size |
| NonceCache.NonceTracker.constructor | src/hokora/security/verification.py:27-36 | nothing seen |
| NonceCache.NonceTracker.CheckAndRecord | src/hokora/security/verification.py:38-55 | answer and cache are those of the specification |
| NonceCache.NonceTracker.EvictExpired | src/hokora/security/verification.py:57-68 | drops the expired prefix |
| NonceCache.NonceTracker.ClearAll | src/hokora/security/verification.py:70-72 | forgets everything |
| PathCache.CacheIs | src/hokora/security/lxmf_inbound.py:78-88 | the cache holds exactly the max_entries most recently queried hashes, in that order |
| PathCache.TimesAre | src/hokora/security/lxmf_inbound.py:78-88 | each with the time of its latest granted request, which refused queries do not refresh |
| PathCache.GrantedIff | src/hokora/security/lxmf_inbound.py:78-88 | a request is refused exactly for those hashes until their grant is ttl old |
| PathCache.CachedIff | src/hokora/security/lxmf_inbound.py:78-88 | a hash is cached if and only if fewer than max_entries distinct others were queried since |
| PathCache.RepeatNeedsFlood | src/hokora/security/lxmf_inbound.py:78-88 | two grants for one hash less than ttl apart take at least max_entries distinct other hashes in between |
| PathCache.RepeatIff | src/hokora/security/lxmf_inbound.py:78-88 | with no query for the hash in between, exactly then or after ttl |
| PathCache.PathRequestCache.constructor | src/hokora/security/lxmf_inbound.py:69-76 | nothing cached |
| PathCache.PathRequestCache.ShouldRequest | src/hokora/security/lxmf_inbound.py:78-88 | answer and order are those of the specification |
| SealedKeys.WindowIs | src/hokora/security/sealed.py:147-237 | after any run the current key is the latest and the history the last five keys that a rotation replaced |
| SealedKeys.KeyForIff | src/hokora/security/sealed.py:173-208 | the key of an epoch is served if and only if it is current, or a rotation replaced it and at most five rotations followed |
| SealedKeys.OpensIff | src/hokora/security/sealed.py:157-208 | a text sealed under an epoch opens exactly while that epoch is served, with its own nonce and under its own channel name |
| SealedKeys.FullWindowIff | src/hokora/security/sealed.py:220-237 | the window is the contiguous five epochs below the current one if and only if the latest five steps, or all, were rotations |
| SealedKeys.RotationWindow | src/hokora/security/sealed.py:220-237 | from one creation on the window is contiguous and an epoch is served for exactly five further rotations |
| SealedKeys.LoadIs | src/hokora/security/sealed.py:266-314 | loading rows written in epoch order, among any others, yields the newest as current and the five before it as history |
| SealedKeys.UnreadableKeeps | src/hokora/security/sealed.py:288-296 | a channel without rows, or whose newest the node cannot read, is left as it is |
| SealedKeys.ReadableLoads | src/hokora/security/sealed.py:288-314 | otherwise the newest row is current and the history what can be read of the five before it |
| SealedKeys.ReadableHolds | src/hokora/security/sealed.py:302-311 | read are exactly the rows made for the node |
| SealedKeys.ReloadRebuildsIff | src/hokora/security/sealed.py:239-314 | with every epoch written once start-up rebuilds the current key, and the same window if and only if the latest steps were rotations |
| SealedKeys.EpochFreshIff | src/hokora/security/roles.py:163-184 | across a restart the next key gets an unused epoch number if and only if the latest epoch had been written |
| SealedKeys.HydrateHistory | src/hokora/security/sealed.py:302-314 | the loop collects the readable older keys, oldest first |
| SealedKeys.SealedChannelManager.constructor | src/hokora/security/sealed.py:135-145 | no keys |
| SealedKeys.SealedChannelManager.GenerateKey | src/hokora/security/sealed.py:147-155 | the next epoch with the new key, other channels untouched |
| SealedKeys.SealedChannelManager.RotateKey | src/hokora/security/sealed.py:220-237 | the outgoing key joins the window of at most five, other channels untouched |
| SealedKeys.SealedChannelManager.Encrypt | src/hokora/security/sealed.py:157-171 | fails without a key; otherwise the result decrypts to the text at once |
| SealedKeys.SealedChannelManager.Decrypt | src/hokora/security/sealed.py:173-208 | the specified key, or the specified error |
| SealedKeys.SealedChannelManager.PersistKey | src/hokora/security/sealed.py:239-264 | appends one row of the node for the channel and none for any other |
| SealedKeys.SealedChannelManager.LoadChannel | src/hokora/security/sealed.py:281-314 | one channel is rebuilt from its newest six rows, others untouched |
| SealedKeys.SealedChannelManager.LoadKeys | src/hokora/security/sealed.py:266-314 | every sealed channel is rebuilt, every other one untouched |

## Left out

- Real cryptography, RNS, LXMF, msgpack and SQL: symbolic functions, sequences and maps stand for them.
- The federation handshake before the first epoch, and the rotation scheduler's timing.
- Wrapping of epoch keys at rest beyond whether a column unwraps, and hex and text encodings of key columns.
- BATCHED delivery: events are counted as queued, their flush and the LXMF fallback are not modelled.
- The full-text index, search, and thread and pin queries.
- Lock tables, the in-memory sequence cache and `deferred_count`: none of them decides an outcome.
- Float rounding, backoff and jitter: the rate limiter works on reals, other clocks on integers, and retry delays are arbitrary.
- Permission bits, roles, bans, invite counters, channel-rotation grace: their outcomes are parameters.
- Channel deletion, which cascades over the message table.
- Sealing an existing channel (src/hokora/cli/channel.py:444), whose plaintext rows stay until a later purge.
- MessageContent.SealedAtRest: is about channels whose sealing does not change, for that reason.
- The order of deferred items with equal `created_at`, which the queries leave open: the model takes them in the order they were queued.
- Change tracking of JSON columns: a reaction rewrites a nested entry of a copied dictionary, and the model takes the row as stored whether or not the ORM would notice the change.
- Message bodies are measured in characters, not in UTF-8 bytes.
- Media paths are a channel and a name: path validation, directories inside a channel and equal modification times are not modelled.
- Invite codes work on bytes rather than hex strings, and on ASCII text: upper-casing of other characters, which can turn one into several letters, is not modelled.
- InviteCode.AnyReplacement: is about ASCII characters for that reason.
- `SealedKeyBootstrap` and key distribution to members.
- The mirror is a transition system over its threads rather than a class, because its laws are about interleavings; it starts once, and link callbacks fire after `_connect` has returned.
- CLI, TUI, configuration, logging, heartbeat, metrics and the HTTP listener.
- EpochManager.EpochLink.LoadState: does not promise erasure of the buffers it replaces, because the source does not erase them.
- EpochDelivery.BackwardDelivery: holds for runs without a lost ack, because `EpochDelivery.LostAckIsFinal` shows that it fails after one.
- RateLimit.EarlyEvictionVisible: is stated for whole bucket sizes, because only those are configured.
- RateLimit.BoundedIff: is stated for whole bucket sizes and a table of at least two buckets, because only those are configured.
- NonceCache.SweepsAreSafe: needs a timestamp, because for a nonce without one `NonceCache.SweepReopens` shows that it fails.
- ZombieBuffer.PushBuffer.Record: requires a clock that does not run backwards.
