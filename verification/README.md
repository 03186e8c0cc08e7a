# SPMP: a verified model of the probabilistic micropayment protocol

A client locks tokens in an escrow channel for one provider and pays for each chunk of work
with a signed lottery ticket. The provider's gatekeeper judges each ticket in memory and keeps
the winning ones; those are claimed from the escrow contract. This project models the contract,
the gatekeeper, the client's signer, the wire format between the two daemons and the audit loop
of the simulator, and proves what holds over whole histories and across the components.

## How it is organised

| file | what it covers |
|---|---|
| `Bytes.dfy`, `Abi.dfy` | fixed-width integers, byte encodings, the nine-word ABI ticket |
| `Eip712.dfy` | digests as contract, client and gatekeeper build them |
| `Threshold.dfy` | the two win tests in exact 256-bit arithmetic |
| `Verifier.dfy` | the gatekeeper class, its verdict, and the life of its secret seed |
| `Erc20.dfy`, `Escrow.dfy` | the token ledger and the contract class, transaction by transaction |
| `Runs.dfy`, `Channels.dfy` | histories: conservation; one channel's ledger, window and replay protection |
| `Reverts.dfy` | why each call on the escrow reverts, and that channel ids tell the pairs apart |
| `Settlement.dfy` | from gatekeeper decisions to on-chain payouts |
| `Governor.dfy`, `Audit.dfy` | the budget governor, its optimality, and the audit loop |
| `Frames.dfy`, `Codec.dfy` | framing on a byte stream; tickets, responses and handshake on the wire |
| `Signer.dfy` | the client's nonce counter and signed tickets |
| `Pipeline.dfy` | client and provider together: nonce gaps, and one conversation from the key to the money |
| `Arrivals.dfy` | tickets of concurrent calls, arriving at the gatekeeper in any order |
| `Example.dfy` | small concrete instances: premises that can be met, and inputs that go wrong |

Each class method (contract, gatekeeper, signer, streams, encoders, the audit loop) is proved
equal to a function on values; the theorems are about those functions and about runs of them.

## What is assumed

- The hash and signature recovery are parameters (`Eip712.Oracle`). Nothing says that the hash is
  injective on all strings, which would be false of any 32-byte hash. Where binding is needed, the
  hypothesis is `CollisionFree` on the finite set of strings that were hashed.
- Which signatures the contract's ECDSA library accepts is a separate abstract predicate. The
  daemon's half-order literal is more than half of the curve order that stands beside it
  (`Verifier.LowSIsUniqueIff`), so its low-s test does not settle what the contract accepts,
  although the log in `docs/` says that it does.
- Transactions are atomic, and a revert leaves all state as it was. Senders are neither the zero
  address nor the escrow. Block times are positive and below 2^64; where order matters it is a
  hypothesis.
- The token follows EIP-20 without fees or callbacks. Everybody may approve, transfer, transfer
  from and mint between calls on the contract.
- Clocks, random seeds and keys are inputs.

## Where the code does not do what one might expect

- The gatekeeper clamps certain or better odds to a certain win; the contract does not clamp. A win at
  n > d is never payable and a win at n = d is lost for the top (2^256 - 1) mod d + 1 hashes
  (`Threshold.WinTestsAgreeIff`, `Settlement.WinIsPayableIff`; `Example.BetterThanCertainIsUnpayable` and
  `Example.TopHashIsUnpayable` are such tickets).
- The gatekeeper never looks at the channel. A win pays exactly when the channel is there and covers it,
  besides the odds (`Settlement.WinIsPayableIff`, `Example.ForeignChannelIsUnpayable`).
- Every handshake starts a session from nonce 1, while the contract keeps its nullifiers. A win of a
  later session pays only if no earlier session was paid for that nonce
  (`Settlement.WinIsPayableOverHistory`, `Example.PaidNonceIsUnpayable`).
- Of a signature and its mirror image at N - s both pass the low-s test in a band around N / 2
  (`Verifier.LowSIsUniqueIff`, `Example.BothSignaturesAreLow`).
- The ticket encoder replaces a face value of 2^128 or more by zero, while the signer aborts on one
  (`Codec.TicketRoundTrip`, `Signer.SignTicket`, `Example.WideFaceValueArrivesAsZero`).
- A signing call that fails leaves a gap in the nonces. Tickets that are good otherwise get past the
  nonce check if and only if no call whose guards fail precedes one whose guards pass, and once there is
  a gap nothing more of that signer is accepted (`Pipeline.GapsBlockTheGate`, `Pipeline.NothingClosesAGap`,
  `Example.FailedCallBlocksTheNext`).
- Concurrent calls get successive nonces, but their tickets are all accepted only if they arrive in that
  order: a ticket that overtakes an earlier one is refused
  (`Arrivals.AllAcceptedIffInOrder`, `Example.OvertakenTicketIsLost`).
- A seed that has won serves again exactly while a rotation back to its commitment is in force
  (`Verifier.ServedAgainIff`, `Example.ReinstalledSeedWinsAgain`).
- The client's handshake ignores the length field of the opening frame, and its response parser takes
  any non-zero flag byte as finished.

## Model

| member | source | states |
|---|---|---|
| `Pipeline.FromKeyToMoney` | docs/DEV2_GATEKEEPER_LOG.md:145-168 | the tickets that a client signs one after another, sent as frames and read off the stream, feed the provider's session as if handed over, and each queued win that is claimed in order and in time pays its face value, whatever others do to the escrow |
| `Settlement.EndToEndSettlement` | docs/DEV2_GATEKEEPER_LOG.md:145-168 | for every gatekeeper session and every history of the escrow, with anybody else calling anything in between, each in-order claim of a queued win below certain odds succeeds and pays the provider its face value; the whole queue lowers the balance by exactly its sum |
| `Settlement.QueueSettles` | provider-daemon/src/settlement.rs:87-102 | the same from any state that meets the escrow's invariant, step by step |
| `Settlement.SessionQueueSound` | provider-daemon/src/verifier.rs:51-72 | every queued task carries a seed that opens its commitment, the client's signature and a winning draw, with strictly increasing nonces |
| `Settlement.SessionCounts` | docs/DEV2_GATEKEEPER_LOG.md:145-168 | every win is queued, and the watermark moves by one for each ticket served or won |
| `Settlement.SessionIsGatekeeper` | provider-daemon/src/verifier.rs:43-72 | over any inputs the loop's seed state is that of the gatekeeper after the same presentations and rotations |
| `Settlement.RotationReopens` | provider-daemon/src/verifier.rs:43-47 | after a rotation an authentic ticket for the new seed is never rejected, whatever happened before |
| `Settlement.HaltingIsPrefix` | docs/DEV2_GATEKEEPER_LOG.md:164-167 | shutting the stream down at the first rejection gives the session of the inputs read up to there, so whatever holds for all inputs holds for that loop |
| `Example.PremisesCanBeMet` | docs/DEV2_GATEKEEPER_LOG.md:145-168 | a concrete session, channel and schedule that meet the premises of the settlement theorem, with a win queued and claimed |
| `Example.PipelineCanBeMet` | docs/DEV2_GATEKEEPER_LOG.md:145-168 | a concrete signed ticket that meets the premises of FromKeyToMoney, with its win queued and claimed |
| `Settlement.WinIsPayableIff` | contracts/SPMPEscrow.sol:130-186 | a gatekeeper win is claimable if and only if the channel is this client's and provider's, covers it, the nonce is unused, the ticket unexpired and its signature accepted on-chain, and the two thresholds agree on its odds and hash |
| `Settlement.WinIsPayableOverHistory` | contracts/SPMPEscrow.sol:141-143 | after any history a gatekeeper win is claimable if and only if its channel, time and signature are right, no earlier claim was paid for that channel id and nonce, and the thresholds agree |
| `Settlement.LosingIsNeverPayable` | contracts/SPMPEscrow.sol:145-177 | a ticket served as losing cannot be claimed by anybody in any state, unless two secrets collide |
| `Threshold.WinTestsAgreeIff` | provider-daemon/src/verifier.rs:137-152 | clamped and unclamped test agree on exactly the odds and hashes outside `Disagree`; the contract never pays what the gatekeeper calls a loss |
| `Threshold.DisagreementCount` | contracts/SPMPEscrow.sol:175-177 | at n = d they differ on exactly MAX mod d + 1 of the 2^256 hashes, at most d |
| `Threshold.ChainPanicsIff` | contracts/SPMPEscrow.sol:176 | the checked arithmetic aborts exactly for d = 0 and n > d |
| `Threshold.GateProductFits` | provider-daemon/src/verifier.rs:142-144 | the gatekeeper's product never wraps |
| `Threshold.WinCountAccurate` | provider-daemon/src/verifier.rs:137-144 | the number T of winning hashes satisfies n <= n 2^256 - d T <= n d |
| `Threshold.WinCountClamped` | provider-daemon/src/verifier.rs:138-141 | no hash wins for n = 0 or d = 0, every hash for n >= d > 0 |
| `Threshold.BetterOddsKeepWins` | provider-daemon/src/verifier.rs:137-152 | more numerator or less denominator never turns a win into a loss, clamped branches included |
| `Example.BetterThanCertainIsUnpayable` | contracts/SPMPEscrow.sol:175-177 | a ticket at odds 2/1 that the gatekeeper takes as a win and the contract answers with an arithmetic panic |
| `Example.TopHashIsUnpayable` | contracts/SPMPEscrow.sol:175-177 | a ticket at odds 1/1 with the highest hash, a win for the gatekeeper and a loss for the contract |
| `Example.ForeignChannelIsUnpayable` | contracts/SPMPEscrow.sol:130-140 | a ticket for a channel that does not exist, a win for the gatekeeper that the contract refuses |
| `Example.PaidNonceIsUnpayable` | provider-daemon/src/transport.rs:179-185 | a fresh session takes a win on nonce 1 that the contract refuses, because an earlier session was paid for nonce 1 |
| `Verifier.Verdict` | provider-daemon/src/verifier.rs:78-153 | a ticket is valid if and only if it has the next nonce, the held commitment, time left and the client's low-s signature; then the draw decides |
| `Verifier.RejectionIsFirstFailure` | provider-daemon/src/verifier.rs:85-128 | each rejection names a check that the ticket fails while it passes all earlier ones, in the order nonce, commitment, expiry, signature |
| `Verifier.CombinedHashIff` | provider-daemon/src/verifier.rs:131-136 | the draw is the number whose 32 big-endian bytes are the hash of digest, client seed and provider seed, in that order |
| `Verifier.DrawBindsSecrets` | contracts/SPMPEscrow.sol:171-173 | without a collision equal draws mean the same digest, client seed and provider seed |
| `Verifier.TicketVerifier.VerifyTicket` | provider-daemon/src/verifier.rs:78-153 | the early-return code with its wrapping increment and fixed buffers computes that verdict |
| `Verifier.TicketVerifier.EvaluateAndGate` | provider-daemon/src/verifier.rs:51-72 | the decision, and that only a win changes the state, by spending the seed: one step of the gatekeeper whose runs the lemmas are about |
| `Verifier.TicketVerifier.RotateSeed` | provider-daemon/src/verifier.rs:43-47 | the new seed, its hash as commitment, and the flag cleared |
| `Verifier.TicketVerifier.constructor` | provider-daemon/src/verifier.rs:18-39 | the initial state and the cached domain separator |
| `Verifier.LowSIsUniqueIff` | provider-daemon/src/verifier.rs:117-120 | of two mirrored signatures at least one passes the low-s test, and both do if and only if s lies between N less the half-order literal and that literal, which exceeds N / 2 |
| `Example.BothSignaturesAreLow` | provider-daemon/src/types.rs:7-14 | s equal to the literal, where both pass |
| `Verifier.SigningHashIsDigest` | provider-daemon/src/verifier.rs:104-111 | the buffer over the cached separator hashes to the contract's digest |
| `Verifier.CommitmentMatchesSeed` | provider-daemon/src/verifier.rs:43-47 | after any calls the advertised commitment is the hash of the held secret |
| `Verifier.OneWinPerSeed` | provider-daemon/src/verifier.rs:58-68 | between rotations everything after the first win is rejected |
| `Verifier.ServedAgainIff` | provider-daemon/src/verifier.rs:43-72 | a ticket bound to a commitment that has won is served again if and only if it is authentic and a rotation back to that commitment came after the win, with no other rotation or win since |
| `Example.ReinstalledSeedWinsAgain` | provider-daemon/src/verifier.rs:43-47 | a win, a rotation to the same seed, and a second win under the same commitment |
| `Verifier.UsedSeedNeverServedAgain` | provider-daemon/src/verifier.rs:43-72 | with secrets that never repeat, no ticket bound to a winning seed is served again |
| `Runs.Conservation` | contracts/SPMPEscrow.sol:88-218 | over every history the channel balances sum to deposits less claims less refunds, and the escrow's tokens exceed that sum by exactly its earlier holdings and gifts |
| `Runs.StepKeepsInv` | contracts/SPMPEscrow.sol:88-218 | each transaction keeps solvency and moves both totals by its own entry |
| `Runs.TotalSplit` | contracts/SPMPEscrow.sol:46 | the sum over the channel map does not depend on order |
| `Runs.BalanceCovered` | contracts/SPMPEscrow.sol:179-183 | each single channel is covered by the escrow's tokens |
| `Channels.ClaimSucceedsIff` | contracts/SPMPEscrow.sol:130-186 | a claim succeeds exactly for a redeemable ticket and its channel's provider; the payout transfer never fails |
| `Channels.ClaimPanicsIff` | contracts/SPMPEscrow.sol:136-177 | a claim panics exactly if everything else is in order and the odds have a zero denominator or exceed certainty |
| `Channels.OpenSucceedsIff` | contracts/SPMPEscrow.sol:88-105 | when a channel opens, and the tokens that move |
| `Channels.DepositSucceedsIff` | contracts/SPMPEscrow.sol:112-121 | when a deposit by anybody succeeds, overflow included, and the tokens that move |
| `Channels.WithdrawSucceedsIff` | contracts/SPMPEscrow.sol:203-218 | a withdrawal succeeds exactly for the client once the delay has run out; the refund never fails |
| `Reverts.CloseSucceedsIff` | contracts/SPMPEscrow.sol:191-196 | a close request succeeds exactly for the channel's client, once |
| `Reverts.ClaimRevertsAtFirstFault` | contracts/SPMPEscrow.sol:136-177 | a claim reverts for a reason if and only if that fault is there and none of those checked before it |
| `Reverts.OpenRevertsAtFirstFault` | contracts/SPMPEscrow.sol:89-102 | the same for an opening |
| `Reverts.DepositRevertsAtFirstFault` | contracts/SPMPEscrow.sol:113-118 | the same for a deposit, overflow before payment |
| `Reverts.CloseRevertsAtFirstFault` | contracts/SPMPEscrow.sol:192-194 | the same for a close request |
| `Reverts.WithdrawRevertsAtFirstFault` | contracts/SPMPEscrow.sol:204-207 | the same for a withdrawal, with the delay of 86400 seconds |
| `Reverts.ChannelIdInjective` | contracts/SPMPEscrow.sol:79-81 | without a collision each pair of client and provider has its own channel id |
| `Reverts.TokenCallEffect` | contracts/SPMPEscrow.sol:102 | what the token's own calls move or approve, and that they leave the contract alone |
| `Channels.ChannelHistory` | contracts/SPMPEscrow.sol:112-183 | without a withdrawal a channel keeps its parties and its balance moves by deposits and payouts only |
| `Channels.EveryChannelWasOpened` | contracts/SPMPEscrow.sol:88-100 | every channel of a reachable state stems from an opening that still stands |
| `Channels.IncarnationLedger` | contracts/SPMPEscrow.sol:95-121 | balance = opening amount + deposits - payouts of that incarnation, which belongs to its opener |
| `Channels.PayoutGoesToProvider` | contracts/SPMPEscrow.sol:137-183 | a payout goes in full to that channel's provider and touches nobody else's tokens |
| `Channels.WithdrawalRefundsRemainder` | contracts/SPMPEscrow.sol:203-215 | the refund goes to the opener and is exactly what the ledger leaves; nullifiers stay |
| `Channels.ProtectedWindow` | contracts/SPMPEscrow.sol:189-211 | for a day after a close request the channel stays, whatever is called, and every redeemable ticket is payable |
| `Channels.NullifiersRecordPayouts` | contracts/SPMPEscrow.sol:141-143 | the nullifiers are exactly those of all payouts so far, across reopenings |
| `Channels.AtMostOnePayout` | contracts/SPMPEscrow.sol:141-180 | no (channel id, nonce) is paid twice in a history |
| `Channels.ReplayCheckExact` | contracts/SPMPEscrow.sol:142-143 | the replay check blocks exactly the pairs already paid, unless keys collide |
| `Channels.NullifierKeyInjective` | contracts/SPMPEscrow.sol:142 | the packed key determines channel id and nonce |
| `Escrow.SPMPEscrow.OpenChannel` | contracts/SPMPEscrow.sol:88-105 | receipt and whole new state of an opening, with the rollback of a failed transfer |
| `Escrow.SPMPEscrow.DepositFunds` | contracts/SPMPEscrow.sol:112-121 | receipt and whole new state of a deposit |
| `Escrow.SPMPEscrow.ClaimTicket` | contracts/SPMPEscrow.sol:130-186 | receipt and whole new state of a claim, checks in the contract's order |
| `Escrow.SPMPEscrow.RequestChannelClose` | contracts/SPMPEscrow.sol:191-198 | receipt and whole new state of a close request, its time cut to 64 bits |
| `Escrow.SPMPEscrow.WithdrawChannel` | contracts/SPMPEscrow.sol:203-218 | receipt and whole new state of a withdrawal |
| `Erc20.TransferFromMoves` | contracts/SPMPEscrow.sol:102 | when a transfer from an allowance succeeds, what it moves, and that no allowance grows |
| `Erc20.TransferMoves` | contracts/SPMPEscrow.sol:183 | when a transfer succeeds and what it moves |
| `Eip712.DigestsAgree` | client-daemon/src/crypto.rs:83-85 | the client's signing hash is the digest that the contract recovers from |
| `Eip712.EncodeDataIsAbi` | contracts/SPMPEscrow.sol:151-164 | field-by-field encoding is the ABI encoding |
| `Eip712.DigestBindsTicketAndDomain` | contracts/SPMPEscrow.sol:151-165 | equal digests mean equal nine fields, chain and contract, unless the hashed strings collide |
| `Eip712.DigestLayout` | contracts/SPMPEscrow.sol:151-165 | the 66 bytes behind a digest, and the 320 bytes behind the struct hash in them, byte range by byte range |
| `Eip712.DomainLayout` | client-daemon/src/crypto.rs:40-46 | the 160 bytes behind a domain separator: hashed type, name and version, chain, contract |
| `Example.TextBytes` | contracts/SPMPEscrow.sol:71 | the protocol's name as the bytes that are hashed |
| `Abi.AbiDecodeIff` | provider-daemon/src/types.rs:109-111 | the strict decoder accepts exactly the encodings, each as its own ticket |
| `Abi.AbiLayout` | contracts/SPMPEscrow.sol:152-163 | which word of an encoding holds which field, padded on the left, numbers most significant byte first |
| `Bytes.FirstByteWeighsMost` | provider-daemon/src/transport.rs:269 | big-endian reading weighs the first byte most |
| `Bytes.LastByteWeighsMost` | provider-daemon/src/transport.rs:296 | little-endian reading weighs the last byte most |
| `Governor.GovernorOptimal` | provider-daemon/src/bin/simulate.rs:206-222 | no set of disjoint stretches of at most 50 tickets with two wins each is larger than the number of trips |
| `Governor.GovernorAttains` | provider-daemon/src/bin/simulate.rs:206-222 | the trips are such a set |
| `Governor.NothingMissed` | provider-daemon/src/bin/simulate.rs:206-222 | no tripping stretch starts at or after the last trip |
| `Governor.LongestDrySpellIsMaximum` | provider-daemon/src/bin/simulate.rs:196-204 | the tracked maximum is the length of the longest run of losses |
| `Audit.RunVarianceAndGovernorAudit` | provider-daemon/src/bin/simulate.rs:146-223 | the loop never reaches its panic and every running figure equals a recount of the history |
| `Audit.PlayRound` | provider-daemon/src/bin/simulate.rs:159-194 | one ticket signed, judged and rotated: its outcome is its draw |
| `Audit.TrackWindow` | provider-daemon/src/bin/simulate.rs:206-222 | the window wins never underflow, are at most 1 between tickets, and equal a recount of the last min(50, since the last trip) tickets |
| `Audit.WindowStep` | provider-daemon/src/bin/simulate.rs:206-222 | sliding the window by one ticket is recounting from the history |
| `Audit.NeverRejected` | provider-daemon/src/bin/simulate.rs:162-193 | a correctly signed timely ticket is served or claimed by its draw |
| `Audit.AuditIsSession` | provider-daemon/src/bin/simulate.rs:146-194 | the audit plays the driving loop with a rotation after each queued win: its wins are the queue, its tickets the watermark, and the gate stays open on the last secret drawn |
| `Audit.AuditTicketIsSigned` | provider-daemon/src/bin/simulate.rs:124-160 | an audit ticket is the one that the client's signer would return on the channel of the two parties, for that pricing and a lifetime of 86400 seconds |
| `Audit.AuditSignatureIsSigned` | provider-daemon/src/bin/simulate.rs:162-163 | and its signature the signer's |
| `Audit.ReportIsExact` | provider-daemon/src/bin/simulate.rs:196-222 | wins plus losses are all tickets, trips are the maximum packing, the dry spell is the longest |
| `Frames.BuildFrame` | provider-daemon/src/transport.rs:252-259 | the frame that the buffer ends up with |
| `Frames.SplitFrameIff` | provider-daemon/src/transport.rs:263-276 | splitting accepts exactly the bodies of known types |
| `Frames.SplitFailsIff` | provider-daemon/src/transport.rs:263-276 | which error a body gets that does not split |
| `Frames.FromCodeIff` | provider-daemon/src/types.rs:96-106 | the type bytes and only they are read back |
| `Frames.ReadFrameFrom` | provider-daemon/src/transport.rs:281-320 | reading from the stream in place gives the frame, the end or the error, and leaves the rest |
| `Frames.ReadFrameIff` | provider-daemon/src/transport.rs:281-320 | a frame within the limit is read exactly when the stream starts with it |
| `Frames.ReadStopsIff` | provider-daemon/src/transport.rs:281-312 | when the stream counts as ended, and which error a broken frame gets, in the order magic, limit, truncation |
| `Frames.FramesComeFirst` | provider-daemon/src/transport.rs:110-114 | frames at the front of a stream are delivered in order, whatever follows, a broken frame included |
| `Frames.BrokenFrameEnds` | provider-daemon/src/transport.rs:110-114 | frames before a broken one are delivered, and its error ends the connection |
| `Frames.StreamRoundTrip` | provider-daemon/src/transport.rs:110-114 | any frames in a row and a tail shorter than a header are read back as those frames and a clean end |
| `Frames.StreamUnambiguous` | provider-daemon/src/transport.rs:281-320 | a stream read to a clean end is frames in a row and such a tail, and nothing else |
| `Frames.OversizeRefused` | provider-daemon/src/transport.rs:298-304 | a payload above 64 KiB is refused by its header |
| `Codec.EncodeTicketFrame` | client-daemon/src/transport.rs:29-73 | the frame that the growing buffers end up with |
| `Codec.TicketRoundTrip` | client-daemon/src/transport.rs:29-73 | up to 65240 variable bytes a ticket is read and decoded as sent, with the client's nine values if and only if the face value fits 128 bits, and else with face value zero |
| `Example.WideFaceValueArrivesAsZero` | client-daemon/src/transport.rs:36 | a face value of 2^128, encoded, read off the stream and decoded as zero |
| `Codec.OversizeTicketRefused` | provider-daemon/src/transport.rs:298-304 | anything larger is refused while its length fits 32 bits |
| `Codec.DecodeTicketFrameIff` | provider-daemon/src/transport.rs:192-235 | a buffer is accepted as a ticket frame exactly when that frame's strict encoding is a prefix of it |
| `Codec.DecodeTicketFailsIff` | provider-daemon/src/transport.rs:192-226 | which error a buffer gets that is no ticket frame |
| `Codec.TicketBytesLayout` | client-daemon/src/transport.rs:29-73 | where ticket, signature, prompt and their lengths stand in the payload |
| `Example.WireVectors` | provider-daemon/src/transport.rs:251-259 | two frames, byte by byte |
| `Example.TypeBytes` | provider-daemon/src/types.rs:96-106 | the six type bytes |
| `Codec.ServeConnection` | provider-daemon/src/transport.rs:110-133 | the loop returns one decode result per frame, up to the end or a framing error, and its own watermark ends at the nonce of the last ticket that decoded |
| `Codec.BadFrameIsIsolated` | provider-daemon/src/transport.rs:110-133 | the i-th result depends on the i-th frame alone |
| `Codec.EncodeResponseFrame` | provider-daemon/src/transport.rs:239-245 | the response frame |
| `Codec.DecodeResponseIff` | client-daemon/src/transport.rs:75-105 | a response is accepted exactly when a frame of that text under a fitting flag byte is a prefix |
| `Codec.DecodeResponseFailsIff` | client-daemon/src/transport.rs:75-102 | which error a response gets that is not accepted |
| `Codec.ResponseRoundTrip` | client-daemon/src/transport.rs:75-105 | text and flag survive the trip |
| `Codec.TCPClient.PerformHandshake` | client-daemon/src/transport.rs:114-157 | it succeeds if and only if 41 bytes are there with the magic and the opening type, whatever the length field says; then the commitment is stored and the acknowledgement sent, else neither |
| `Codec.Handshake` | provider-daemon/src/transport.rs:143-187 | both sides of a handshake end up with the same session |
| `Codec.AwaitAck` | provider-daemon/src/transport.rs:155-186 | what the provider makes of the acknowledgement, errors included; on success exactly that frame is consumed |
| `Codec.AckSessionIff` | provider-daemon/src/transport.rs:155-186 | a session is captured exactly from an acknowledgement frame at the front of the stream, for the channel and address in it |
| `Codec.AckFailsIff` | provider-daemon/src/transport.rs:155-173 | which error an acknowledgement gets that captures no session |
| `Signer.TicketSigner.SignNextTicket` | client-daemon/src/crypto.rs:89-144 | the counter advances even when the call fails; the result is that of SignTicket, in a debug and in a release build |
| `Signer.SignTicket` | client-daemon/src/crypto.rs:89-144 | a ticket is returned if and only if the clock reads, nothing overflows that aborts, the face value fits 128 bits and the key signs; it has the next nonce and is signed over the contract's digest |
| `Signer.TicketIsAsRequested` | client-daemon/src/crypto.rs:98-138 | every returned ticket carries the pricing, the commitment, the drawn client seed, the next nonce and the clock plus the duration |
| `Signer.TicketIsSigned` | client-daemon/src/crypto.rs:121-125 | its signature is the key's on the EIP-712 signing hash of that ticket |
| `Signer.SignErrorIsFirstFault` | client-daemon/src/crypto.rs:95-124 | a failed call gives the first thing that is wrong, in the order of the code |
| `Signer.SignedTicketReachesGate` | client-daemon/src/crypto.rs:89-144 | a signed ticket travels, decodes as its nine values and passes every check of the gatekeeper |
| `Signer.AllocationIsExact` | client-daemon/src/crypto.rs:94-95 | for any interleaving of fewer than 2^64 calls the nonces are exactly 1 to the watermark, each held by one call |
| `Signer.CallsAreFinal` | client-daemon/src/crypto.rs:94-95 | a call keeps its nonce over any later steps of any call, and its ticket or error once it has ended |
| `Signer.TicketCarriesNonce` | client-daemon/src/crypto.rs:89-144 | whatever the interleaving, a returned ticket carries its own call's nonce, and the signer's channel and provider |
| `Signer.AllocationWraps` | client-daemon/src/crypto.rs:94-95 | the 2^64-th call restarts the counter and, where it does not abort, gets nonce 0, which no gatekeeper accepts |
| `Pipeline.WatermarkLag` | provider-daemon/src/verifier.rs:85-88 | the session's watermark never passes the signer's counter, and equals it exactly while every call so far returned a ticket that was good apart from its nonce |
| `Pipeline.NonceRefusedIff` | provider-daemon/src/verifier.rs:85-88 | a returned ticket that meets an unspent seed is refused for its nonce if and only if an earlier call failed or returned a ticket that was not good |
| `Pipeline.GapsBlockTheGate` | client-daemon/src/crypto.rs:94-109 | with tickets that are good otherwise, none is refused for its nonce if and only if no call whose guards fail comes before one whose guards pass |
| `Pipeline.StuckForever` | provider-daemon/src/verifier.rs:85-88 | while only nonces beyond the next one arrive, everything is refused and neither watermark nor queue moves, whatever rotations happen |
| `Pipeline.NothingClosesAGap` | provider-daemon/src/verifier.rs:85-88 | once the session lags behind the counter, no later ticket of that signer is accepted |
| `Pipeline.GoodCallsAreServed` | provider-daemon/src/verifier.rs:51-72 | without a gap every ticket is served or claimed by its draw, and the session ends level with the counter |
| `Example.FailedCallBlocksTheNext` | client-daemon/src/crypto.rs:94-105 | a call with an unreadable clock, then a ticket with nonce 2 that the gatekeeper refuses and that would have won without that call |
| `Arrivals.WatermarkIsLongestChain` | provider-daemon/src/verifier.rs:85-88 | whatever arrives in whatever order, the session's watermark moves by the length of the longest chain of successive nonces among the tickets that are otherwise fit |
| `Arrivals.AcceptedIff` | provider-daemon/src/verifier.rs:85-88 | a ticket is accepted if and only if it is fit and the next link of that chain |
| `Arrivals.AllAcceptedIffInOrder` | client-daemon/src/crypto.rs:94-95 | if each concurrent call's ticket is delivered and fit, all are accepted if and only if they arrive in the order of their nonces |
| `Arrivals.MissingCallStopsTheGate` | client-daemon/src/crypto.rs:94-105 | nothing gets past the nonce of a call whose ticket never arrives, in any order, with any repetition or rotation |
| `Arrivals.SequentialIsConcurrent` | client-daemon/src/crypto.rs:94-144 | a conversation is the interleaving in which each call ends and delivers before the next one starts: the session is fed the same inputs |
| `Example.OvertakenTicketIsLost` | client-daemon/src/crypto.rs:94-95 | two concurrent calls whose tickets arrive the other way round: the later one is refused |
| `Pipeline.WireFeedsSession` | provider-daemon/src/transport.rs:110-133 | the frames of the signed tickets, followed by any broken-off tail, are read and decoded in order into the inputs of the session |
| `Pipeline.PostedInOrder` | client-daemon/src/transport.rs:29-73 | each call that returns a ticket has it sent with that call's prompt, in the order of the calls |
| `Pipeline.PostedComesFrom` | client-daemon/src/transport.rs:29-73 | and nothing else is sent |
| `Pipeline.TalkIsSession` | docs/DEV2_GATEKEEPER_LOG.md:145-168 | the conversation's session is that of the driving loop on those inputs |

## Left out

- keccak256, ECDSA, random numbers and clocks are parameters; the EIP-712 and ECDSA libraries that the contract imports are not part of this model.
- `Eip712.DomainSeparator`: one definition for all three programs; how the libraries assemble the domain, and that the daemons' macro derives the contract's type string, is taken as given.
- `Erc20.TransferMoves`: the ledger has unbounded balances and minting has no supply cap.
- `Escrow.SPMPEscrow.ClaimTicket`: events, gas and the reentrancy guard are not modelled; transactions are atomic.
- `Signer.TicketSigner.SignNextTicket`: a panic (a too wide face value; in a debug build an overflowing nonce or expiry) appears as an error result.
- `Audit.RunVarianceAndGovernorAudit`: the floating-point statistics, the printed report and the latency figures.
- `Settlement.EndToEndSettlement`: the driving loop of a session exists only as an integration example in the documentation, so it is modelled on values; RPC submission is a call in the history. The session goes on after a rejection, where the example shuts its stream down: `Pipeline.StuckForever`, `Pipeline.NothingClosesAGap` and what `Arrivals.dfy` says of tickets after a refusal also speak of arrivals that the example would not read (`Settlement.HaltingIsPrefix`).
- `Codec.ServeConnection`: timeouts, and logging, whose `last_nonce + 1` would overflow after nonce 2^64 - 1 in a debug build.
- The client's own reading of a response from the stream, which repeats the parser with the same checks.
- UTF-8 validity is an abstract predicate on bytes.
- Re-handshake after a rotation and win notification: the message types exist, no code sends them.
- The HTTP proxy, the compute worker, sockets, command-line parsing and the single-ticket benchmark mode.
