# A verified model of Dissent's protocols

Dissent is an anonymous-messaging system: a few servers run a verifiable shuffle and a DC-net for
many clients, so that everybody's messages come out and nobody's can be traced. This project models
the parts of it that carry that promise and proves what they are for:

- **The verifiable mixnet.** Modular arithmetic and the order-q subgroup (`Modular`, `Group`), the
  shuffle transcript and its equations (`NeffSpec`), the shuffling and verifying loops
  (`NeffShuffle`), why an honest transcript passes (`NeffLinks`, `NeffIota`, `NeffCompleteness`),
  message encoding and series ElGamal (`Dsa`), what a chain of servers does to the plaintexts
  (`Mixnet`), the round that collects and verifies the transcripts (`NeffRound`), and all of it
  together, from the clients' messages to the cleartext (`MixRound`).
- **The companion proofs.** The linkable ring signature (`LinkableRing`) and the Diffie-Hellman
  equality proof (`DiffieHellman`).
- **The DC-net round.** Buffers and exclusive or (`Xor`), pads and their cancellation (`DcNetPads`),
  the contents of a slot (`DcNetCodec`), the slot layout (`DcNetLayout`), a participant
  (`DcNetMember`), whole runs and delivery (`DcNetDelivery`), one server's commit/reveal/sign steps
  (`DcNetServers`), all servers together (`DcNetAgreement`), and clients and servers together, from
  the data to what is pushed (`DcNetRound`).
- **Set-up and plumbing with a protocol in it.** Session agreement and where it ends
  (`ServerSession`, `SessionReplay`), the buffering
  state machine of a round (`RoundMachine`), the overlay broadcast (`Overlay`), the SFT views and
  slots (`SftView`, `SftSlots`), the send queue with the tunnel framing (`SendQueue`), and the JSON
  printer and parser (`JsonText`, `JsonRoundTrip`, `JsonParser`). `Counting` holds facts about
  finite index sets.

Conventions. Code that changes state is a class or a method with loops, proved against a function
or predicate; the main results are lemmas about those. Hashes, generators, random draws, data from
the application, signatures and the encoding of a pair are parameters. Where a theorem needs a hash
without collisions or signatures that cannot be forged, it says so in its `requires` (`Ideal`,
`Injective`) or models it directly (only the signer can produce `Signature(s, d)`). Group parameters
are assumed to be what the system's fixed groups are: q prime, q divides p - 1, g of order q.

Some promises do not hold of the code as it stands. Each is modelled as the code has it, with the
exact condition and a failing input:

- A shuffle with gamma or some r[i] - t equal to zero modulo q is rejected by every verifier unless
  the challenge c vanishes; the random draws do not exclude it (`HonestAcceptedIff`,
  `UnluckyRejected`, `RejectedModSeven`).
- A server that verifies several transcripts at once carries on differently from one that verifies
  them one by one. The order in which transcripts arrive makes no difference if and only if each
  transcript after the first verifies or follows an empty output (`OrderInvisibleIff`,
  `InvalidTranscriptExposesOrder`); among honest servers it does make one if and only if some
  server's draws are exceptional, but not the first one's (`OrderShowsIff`, `OrderExample`).
- A Diffie-Hellman equality proof is refused when a commitment happens to have a leading zero byte,
  since the prover hashes fixed-length encodings and the verifier shortest ones
  (`HonestProofVerifies`, `ShortCommitmentRejected`).
- A DC-net client whose open request is left out of a phase never gets a slot: its ciphertexts are
  too long from then on, and it forgets messages it takes. Exactly-once delivery holds at the end of
  a run if and only if no request was lost before the last two phases (`RunKeeps`, `DeliveredIff`,
  `LossExample`). Likewise an owner that sets its open bit while keeping a slot makes the announced
  length wrong (`LengthMatchesIff`, `OverlapExample`).
- Attempts at the same session proposal can end in different rounds, because a restart forgets the
  proposal. All attempts agree in all runs if and only if the proposer is honest (`AgreementIff`,
  `ReplaySplitsRound`); in one run, a single honest server that took the proposal up only once is
  enough (`SessionsAgree`).
- The exit of the tunnel recovers the valid packets of the batches that were not taken back if and
  only if none of them is larger than its batch allows; the queue passes over larger ones silently
  (`SendQueue.RunDelivers`, `OversizedLost`).
- The state machine of a round loses the messages it has buffered when a transition does not go
  through. What the round's code does can lose a message if and only if it fails somewhere or ends a
  cycle (`LossPossibleIff`, `CallbackFailureLoses`).

Where the source's comments and its code disagree, the code is followed: the linkage generator of
the ring signature is derived from the linkage context only, not from the keys; a signature by a
ring of one is always refused.

## Model

| member | source | states |
|---|---|---|
| NeffShuffle.CombineKeys | src/Crypto/NeffShuffle.cpp:32-36 | the loop over the remaining keys accumulates the product of all of them |
| NeffShuffle.SortByEncoding | src/Crypto/NeffShuffle.cpp:79-80 | the order is a permutation and the encodings along it never decrease |
| NeffShuffle.InvertOrder | src/Crypto/NeffShuffle.cpp:83-88 | pi and inv_pi are inverse to each other |
| NeffShuffle.Mix | src/Crypto/NeffShuffle.cpp:60-95 | the output is the inputs re-encrypted under the combined key, permuted, in the order of their encodings |
| NeffShuffle.Commit | src/Crypto/NeffShuffle.cpp:109-121 | Gamma, A, C, U and W are the powers the protocol prescribes for the drawn secrets |
| NeffShuffle.DeltaSum | src/Crypto/NeffShuffle.cpp:123-128 | the accumulated exponent is tau_0 plus all w[i]*beta[pi[i]] modulo q |
| NeffShuffle.DeltaProduct | src/Crypto/NeffShuffle.cpp:123-128 | x_multi and y_multi are the product of the inputs raised to w[inv_pi[i]] - u[i] |
| NeffShuffle.MakeShares | src/Crypto/NeffShuffle.cpp:109-132 | all commitments of the first message are honest for the given output |
| NeffShuffle.Blind | src/Crypto/NeffShuffle.cpp:146-158 | the blinding values b and their commitments D answer the first challenge |
| NeffShuffle.Respond | src/Crypto/NeffShuffle.cpp:168-183 | r, s, sigma and tau answer the challenge lambda |
| NeffShuffle.Shift | src/Crypto/NeffShuffle.cpp:194-201 | r and s shifted by t and gamma*t |
| NeffShuffle.MakeThetas | src/Crypto/NeffShuffle.cpp:203-221 | all 2k Theta values, first, middle and last formula alike, are g to one uniform exponent expression |
| NeffShuffle.MakeAlphas | src/Crypto/NeffShuffle.cpp:231-246 | the running quotient and the powers of the inverse of gamma give the prescribed responses alpha |
| NeffShuffle.DecryptAll | src/Crypto/NeffShuffle.cpp:248-274 | every output pair is decrypted, with a proof for its own challenge |
| NeffShuffle.Prove | src/Crypto/NeffShuffle.cpp:97-276 | the transcript satisfies every one of the prover's equations |
| NeffShuffle.Shuffle | src/Crypto/NeffShuffle.cpp:12-277 | it fails exactly on empty input; otherwise the transcript is honest for the combined key and the output is sorted |
| NeffShuffle.CheckInput | src/Crypto/NeffShuffle.cpp:300-317 | accepted exactly if both halves of every input are in the subgroup |
| NeffShuffle.CheckSorted | src/Crypto/NeffShuffle.cpp:345-351 | accepted exactly if the output's encodings never decrease |
| NeffShuffle.CheckThetas | src/Crypto/NeffShuffle.cpp:431-479 | accepted exactly if all 2k Theta equations hold |
| NeffShuffle.CheckSigmas | src/Crypto/NeffShuffle.cpp:484-493 | accepted exactly if all k sigma equations hold |
| NeffShuffle.Iota | src/Crypto/NeffShuffle.cpp:483-488 | the accumulated iota is the product of its 2k factors |
| NeffShuffle.CheckDecryptions | src/Crypto/NeffShuffle.cpp:506-547 | accepted exactly if every decryption proof holds for its own challenge |
| NeffShuffle.Verify | src/Crypto/NeffShuffle.cpp:279-550 | it accepts exactly the transcripts that satisfy all conditions, and leaves the output untouched otherwise |
| NeffLinks.AllLinkedIff | src/Crypto/NeffShuffle.cpp:203-246 | the hidden exponents telescope around the whole cycle of 2k links if and only if the challenge vanishes or gamma and every shifted r are nonzero modulo q |
| NeffIota.IotaHolds | src/Crypto/NeffShuffle.cpp:123-132 | for every permutation, the re-encrypted and the original factors of one iota equation multiply up to Delta times the base to tau |
| NeffCompleteness.ThetasIff | src/Crypto/NeffShuffle.cpp:431-479 | an honest transcript passes the 2k Theta checks if and only if its draws are good |
| NeffCompleteness.SigmasAlwaysHold | src/Crypto/NeffShuffle.cpp:489-492 | an honest transcript passes all sigma checks, whatever was drawn |
| NeffCompleteness.IotasAlwaysHold | src/Crypto/NeffShuffle.cpp:495-503 | an honest transcript passes both iota equations, whatever was drawn |
| NeffCompleteness.DecryptionsAlwaysHold | src/Crypto/NeffShuffle.cpp:524-547 | an honest transcript passes all decryption proofs, whatever was drawn |
| NeffCompleteness.HonestAcceptedIff | src/Crypto/NeffShuffle.cpp:279-550 | completeness, exactly: every honest transcript for every k, permutation, secrets and challenges is accepted if and only if the challenge c vanishes or gamma and every r[i] - t are nonzero modulo q |
| NeffCompleteness.HonestExists | src/Crypto/NeffShuffle.cpp:51-275 | every prover with any input, secrets and challenges has an honest transcript |
| NeffCompleteness.UnluckyRejected | src/Crypto/NeffShuffle.cpp:187-226 | in every group with q > 2, one pair, secrets and challenges with r[0] equal to t and c nonzero: an honest transcript exists and is refused |
| NeffCompleteness.RejectedModSeven | src/Crypto/NeffShuffle.cpp:187-226 | the same in the group of order 3 modulo 7 |
| Dsa.Encode | src/Crypto/DsaPublicKey.cpp:26-70 | an encoding is found if and only if some pad byte below 255 (or the raw value) lands in the group, and it is the first such |
| Dsa.DecodeEncode | src/Crypto/DsaPublicKey.cpp:26-91 | in safe-prime mode decoding inverts encoding for every message |
| Dsa.DecodeEncodeRaw | src/Crypto/DsaPublicKey.cpp:29-37 | outside safe-prime mode decoding inverts encoding exactly for messages without leading zero that do not look framed |
| Dsa.SeriesEncrypt | src/Crypto/DsaPublicKey.cpp:113-152 | it succeeds exactly with some key and an encodable message, and the result is one ElGamal pair under the product of all keys |
| Dsa.ReducedDecrypts | src/Crypto/DsaPrivateKey.cpp:45-69 | decryption of a reduced pair always succeeds and removes one layer |
| Mixnet.SeriesEncryptMeans | src/Crypto/DsaPublicKey.cpp:113-152 | the pair is in the group and its plaintext under the sum of all private keys is the encoded message |
| Mixnet.ReencryptMeans | src/Crypto/NeffShuffle.cpp:64-71 | re-encryption under the combined key keeps group membership and plaintext |
| Mixnet.LayerMeans | src/Crypto/DsaPrivateKey.cpp:45-69 | removing one layer keeps the plaintext under the remaining keys |
| Mixnet.TurnMeans | src/Anonymity/NeffShuffleRound.cpp:610-628 | one server's turn keeps the multiset of plaintexts, now under the keys that are left |
| Mixnet.ChainMeans | src/Anonymity/NeffShuffleRound.cpp:610-662 | through any chain of servers, the pairs before stage i are encryptions of the original multiset of plaintexts under keys i to n |
| Mixnet.MixnetDelivers | src/Anonymity/NeffShuffleRound.cpp:434-449 | after the last stage the finished messages are, as a multiset, exactly the messages the clients encrypted |
| Mixnet.ShuffleAndVerify | src/Anonymity/NeffShuffleRound.cpp:610-648 | shuffling and verifying one stage: the transcript is honest for the given key, secrets and input, accepted exactly for good draws, and what it decrypts to has the input's plaintexts |
| NeffRound.ShuffleServer.VerifyShuffles | src/Anonymity/NeffShuffleRound.cpp:630-662 | the new input, keys, index and cleartext are those of the batch of consecutive transcripts |
| NeffRound.ShuffleServer.HandleShuffle | src/Anonymity/NeffShuffleRound.cpp:270-309 | a transcript is stored once; a batch runs exactly when it extends the contiguous prefix |
| NeffRound.HandleKeepsInv | src/Anonymity/NeffShuffleRound.cpp:270-309 | as long as no transcript is sensitive, every arrival, repeated or from a stranger, keeps next <= end <= new_end with all proofs below new_end present and the state that of one batch over the prefix |
| NeffRound.OrderIndependent | src/Anonymity/NeffShuffleRound.cpp:270-309 | for every arrival order of valid transcripts the final input, keys and cleartext are those of verifying in server order |
| NeffRound.WholeBatch | src/Anonymity/NeffShuffleRound.cpp:637-647 | a batch over a whole prefix does what verifying that prefix in one go does |
| NeffRound.BatchingInvisibleIff | src/Anonymity/NeffShuffleRound.cpp:634-647 | verifying in one batch and in batches of one agree after every prefix if and only if each transcript after the first verifies or follows an empty output |
| NeffRound.ExtremeOrders | src/Anonymity/NeffShuffleRound.cpp:270-309 | arrival in server order ends as verifying every transcript in a batch of its own, arrival in the opposite order as verifying all in one batch |
| NeffRound.OrderInvisibleIff | src/Anonymity/NeffShuffleRound.cpp:270-309 | for every number of servers and any transcripts, all arrival orders end with the same input, keys and cleartext if and only if each transcript after the first verifies or follows an empty output |
| NeffRound.InvalidTranscriptExposesOrder | src/Anonymity/NeffShuffleRound.cpp:642-645 | with two servers and an invalid second transcript the two arrival orders agree if and only if the first output is empty |
| MixRound.VerifyIsSubstantial | src/Crypto/NeffShuffle.cpp:279-325 | NeffShuffle::Verify accepts nothing over an empty input and never yields an empty output |
| MixRound.TurnsAnswer | src/Anonymity/NeffShuffleRound.cpp:610-647 | along any chain of honest servers each transcript is accepted exactly if that server's draws are not exceptional |
| MixRound.RoundDelivers | src/Anonymity/NeffShuffleRound.cpp:270-309 | from messages to cleartext: with honest servers, no exceptional draws and any arrival order, all transcripts are verified and the cleartext is a permutation of the clients' messages |
| MixRound.OrderShowsIff | src/Anonymity/NeffShuffleRound.cpp:634-647 | among honest servers the arrival order shows if and only if some server's draws are exceptional and the first server's are not |
| MixRound.OrderExample | src/Anonymity/NeffShuffleRound.cpp:634-647 | in every group with q > 2, two honest servers in whose round the arrival order shows |
| LinkableRing.RingKey.AddKey | src/Crypto/LRSPublicKey.cpp:52-64 | a key joins the ring exactly if it has the ring's parameters |
| LinkableRing.RingKey.SetLinkageContext | src/Crypto/LRSPrivateKey.cpp:34-50 | the group generator follows from the context and the tag is the generator to the private key |
| LinkableRing.RingKey.Sign | src/Crypto/LRSPrivateKey.cpp:52-102 | the signature's chain, walked by Verify from index 0, returns to its first commitment |
| LinkableRing.RingKey.Verify | src/Crypto/LRSPublicKey.cpp:93-127 | it accepts exactly well-sized signatures of a ring of at least two whose chain closes |
| LinkableRing.RingCloses | src/Crypto/LRSPrivateKey.cpp:66-98 | for every ring, signer position, hash and draws, the rotated chain of the signer closes when walked from index 0 |
| LinkableRing.TagsLinkIff | src/Crypto/LRSPublicKey.cpp:66-86 | under one context two private keys give the same tag if and only if they are equal modulo q or the context hashes to zero |
| LinkableRing.SignThenVerify | src/Crypto/LRSPublicKey.cpp:93-127 | a signature verifies if and only if the ring has at least two keys, and two signatures by one key under one context carry equal tags |
| DiffieHellman.CommitmentsMatch | src/Crypto/DiffieHellman.cpp:55-84 | from the response reduced modulo p - 1 the verifier recomputes both of the prover's commitments |
| DiffieHellman.EncodingsMatchIff | src/Crypto/DiffieHellman.cpp:10-53 | prover and verifier encode both commitments alike if and only if they have no leading zero byte |
| DiffieHellman.HonestProofVerifies | src/Crypto/DiffieHellman.cpp:55-98 | an honest proof yields the shared secret if its commitments have full length, and nothing otherwise when the hash has no collisions |
| DiffieHellman.ShortCommitmentRejected | src/Crypto/DiffieHellman.cpp:55-98 | in the group of order 11 modulo 331, for every private key, an honest proof with nonce 1 is accepted and one with nonce 2 is refused |
| Xor.XorInPlace | src/Anonymity/BaseDCNetRound.cpp:42-52 | the destination's common prefix becomes the exclusive or of the operands' old contents, also when it is one of them; the rest stays |
| DcNetPads.PadsAgree | src/Anonymity/CSDCNetRound.cpp:902-920 | client and server derive the same pad from their own exponent and the other's public key |
| DcNetPads.KeyedAgrees | src/Anonymity/CSDCNetRound.cpp:902-953 | in a phase whose clients and servers each generate their pads from their own exponents, both sides have the same pad for every pair |
| DcNetPads.SumPads | src/Anonymity/CSDCNetRound.cpp:969-980 | the loop leaves the sum of all blocks in the buffer, byte by byte |
| DcNetPads.ClientCiphertext | src/Anonymity/CSDCNetRound.cpp:967-995 | a client's ciphertext is its contribution plus one pad per server |
| DcNetPads.HandledPads | src/Anonymity/CSDCNetRound.cpp:922-953 | the server's generators are those of the handled clients, each once |
| DcNetPads.ServerCiphertext | src/Anonymity/CSDCNetRound.cpp:1147-1159 | a server's ciphertext is one pad per handled client plus the ciphertexts it received, in any order of arrival |
| DcNetPads.Combine | src/Anonymity/CSDCNetRound.cpp:1180-1186 | the cleartext is the sum of all server ciphertexts |
| DcNetPads.ServerPads | src/Anonymity/CSDCNetRound.cpp:922-980 | the pads summed over servers equal the pads summed over handled clients |
| DcNetPads.ReceivedOnce | src/Anonymity/CSDCNetRound.cpp:1147-1159 | every handled client's ciphertext enters exactly once |
| DcNetPads.PadsCancel | src/Anonymity/CSDCNetRound.cpp:1180-1188 | for every number of clients and servers, handled set and assignment, the sum of the server ciphertexts is the sum of the handled clients' contributions |
| DcNetCodec.ReadWrite | src/Utils/Serialization.hpp:20-43 | every 32-bit integer written anywhere in a buffer is read back |
| DcNetCodec.DerandomizeRandomize | src/Anonymity/CSDCNetRound.cpp:1545-1582 | with a seed that is not null, derandomizing inverts randomizing |
| DcNetCodec.ParseSlotText | src/Anonymity/CSDCNetRound.cpp:1035-1077 | a slot message is read back as valid, with its announced length and its contents, and raises no accusation |
| DcNetCodec.ParseAccusation | src/Anonymity/CSDCNetRound.cpp:1055-1075 | an accusing slot is read back with its flag, a header-only next slot and blanked contents |
| DcNetCodec.ParseZeros | src/Anonymity/CSDCNetRound.cpp:1421-1433 | an untouched slot is read as absent |
| DcNetLayout.SlotsTile | src/Anonymity/CSDCNetRound.cpp:1411-1419 | slots of different owners do not overlap and lie behind the open bits |
| DcNetLayout.LengthMatchesIff | src/Anonymity/CSDCNetRound.cpp:1380-1389 | the accumulated next length exceeds the room of the next layout by one header per owner that both opens and keeps a slot; it is exact if and only if there is none |
| DcNetLayout.FillGaps | src/Anonymity/CSDCNetRound.cpp:1161-1164 | the loop over the growing map ends, with entries for 0 to the last owner, the new ones zero, and reports exactly the open slots |
| DcNetLayout.ZeroEntriesInvisible | src/Anonymity/CSDCNetRound.cpp:1161-1164 | zero entries change neither the next layout, nor the next length, nor what is delivered |
| DcNetLayout.ZeroEntriesSplit | src/Anonymity/CSDCNetRound.cpp:1411-1419 | zero entries do not move any slot of a cleartext |
| DcNetMember.OverwriteIs | src/Anonymity/CSDCNetRound.cpp:991-995 | writing the masked slot into the pads equals adding a buffer that is zero outside the slot |
| DcNetMember.FillSlot | src/Anonymity/CSDCNetRound.cpp:1035-1077 | the message due goes out with the length of the next one, and the two stored messages advance only after a read |
| DcNetMember.OverlapExample | src/Anonymity/CSDCNetRound.cpp:1378-1460 | one client that keeps an empty slot and sets its open bit makes the announced length one header too large |
| DcNetMember.FindFlip | src/Anonymity/CSDCNetRound.cpp:1467-1491 | a bit to blame is found if and only if some bit sent as 0 came out as 1 |
| DcNetMember.ReadOpenBits | src/Anonymity/CSDCNetRound.cpp:1380-1389 | entries exist exactly for the set open bits, and the length counts one header for each |
| DcNetMember.ReadSlots | src/Anonymity/CSDCNetRound.cpp:1411-1529 | every slot is read at its own offset; next entries, length, messages in order, accusation and the owner's own state follow from how it reads |
| DcNetMember.Member.constructor | src/Anonymity/CSDCNetRound.cpp:889-900 | the round starts with no slots and just the open bits as length |
| DcNetMember.Member.CheckData | src/Anonymity/CSDCNetRound.cpp:1020-1033 | data is requested only when none is waiting, and the result says whether some is |
| DcNetMember.Member.GenerateSlotMessage | src/Anonymity/CSDCNetRound.cpp:1035-1077 | text and new state are those of the owner's turn |
| DcNetMember.Member.FindOffset | src/Anonymity/CSDCNetRound.cpp:982-989 | the writer's loop arrives at the reader's offset of its slot, or behind all slots when it has none |
| DcNetMember.Member.GenerateCiphertext | src/Anonymity/CSDCNetRound.cpp:967-1018 | the ciphertext is the owner's contribution plus all pads, and longer than the phase's length exactly when the slot does not fit |
| DcNetMember.Member.ProcessCleartext | src/Anonymity/CSDCNetRound.cpp:1378-1537 | layout, length, pushed messages, accusation flag and own state after the phase, as the cleartext determines them |
| DcNetDelivery.ServersCombine | src/Anonymity/CSDCNetRound.cpp:1180-1188 | what the servers compute from ciphertexts padded on either side with its own exponent is the sum of the handled contributions |
| DcNetDelivery.StrandedTooLong | src/Anonymity/CSDCNetRound.cpp:418-422 | an owner without an entry in the layout produces a ciphertext that no server takes |
| DcNetDelivery.TextInSlot | src/Anonymity/CSDCNetRound.cpp:1411-1419 | the cleartext of an open slot is its owner's text if the owner was handled, and zeros otherwise, whatever all others send |
| DcNetDelivery.OpenBitOf | src/Anonymity/CSDCNetRound.cpp:1000-1006 | an open bit of the cleartext is set exactly if its client asked and was handled |
| DcNetDelivery.OpenStays | src/Anonymity/CSDCNetRound.cpp:1421-1528 | an open slot stays open with the length its owner will use next, and delivers exactly the message due, or nothing if the owner was left out |
| DcNetDelivery.ClosedNext | src/Anonymity/CSDCNetRound.cpp:1000-1006 | a closed slot opens when its request is handled, stays closed without one, and is stranded when the request is left out |
| DcNetDelivery.StrandedStays | src/Anonymity/CSDCNetRound.cpp:418-422 | a stranded owner is never handled again |
| DcNetDelivery.StepKeepsInv | src/Anonymity/CSDCNetRound.cpp:1378-1537 | every phase keeps: the length is exact, every slot is closed, open with the length its owner expects, or stranded; nobody accuses |
| DcNetDelivery.RunKeeps | src/Anonymity/CSDCNetRound.cpp:1378-1537 | in every run, for every pattern of omissions, the invariant holds and a slot is stranded if and only if its open request was left out once |
| DcNetDelivery.ExactlyOnce | src/Anonymity/CSDCNetRound.cpp:1035-1077 | unless its open request was left out, the non-empty messages pushed for a slot followed by the owner's pending ones are the non-empty messages the owner took, in order |
| DcNetDelivery.StrandedSince | src/Anonymity/CSDCNetRound.cpp:1035-1077 | what the owner of a lost request remembers, by the number of phases since: the message, the message marked as sent, then newer ones only |
| DcNetDelivery.LostAt | src/Anonymity/CSDCNetRound.cpp:1035-1045 | once a request was lost in phase t nothing is ever delivered for it, and after m phases the conservation equation holds if and only if m <= t + 2 |
| DcNetDelivery.DeliveredIff | src/Anonymity/CSDCNetRound.cpp:1035-1077 | for every run and slot: exactly-once delivery holds at the end if and only if no request was lost before the last two phases |
| DcNetDelivery.StepExists | src/Anonymity/CSDCNetRound.cpp:1378-1537 | every choice of data, seeds and handled clients whose ciphertexts have the right length is a phase |
| DcNetDelivery.LossExample | src/Anonymity/CSDCNetRound.cpp:1000-1045 | a run of one client and three phases that ends without exactly-once delivery |
| DcNetServers.DcServer.StateComplete | src/Anonymity/CSDCNetRound.cpp:299-327 | leaving a stage clears the servers heard; the next stage's callback sets its own part of the state |
| DcNetServers.DcServer.HandleServerClientList | src/Anonymity/CSDCNetRound.cpp:454-489 | one list per server is merged; the last one completes the stage |
| DcNetServers.DcServer.HandleServerCommit | src/Anonymity/CSDCNetRound.cpp:491-519 | one commit per server is recorded; the last one completes the stage |
| DcNetServers.DcServer.HandleServerCiphertext | src/Anonymity/CSDCNetRound.cpp:521-563 | a ciphertext is taken exactly once per server, with the right length and matching that server's commit |
| DcNetServers.DcServer.HandleServerValidation | src/Anonymity/CSDCNetRound.cpp:565-599 | a validation is taken exactly once per server and only if it signs the local hash |
| DcNetServers.HandledKeepsInv | src/Anonymity/CSDCNetRound.cpp:454-599 | every message, taken or not, keeps: ciphertexts are sent after one commit from every server, and folded in only if they match those commits |
| DcNetAgreement.NextKeepsInv | src/Anonymity/CSDCNetRound.cpp:454-599 | every action of any server, honest or not, in any order, keeps: what an honest server took or pushed in a phase, every honest server signed |
| DcNetAgreement.HonestServersAgree | src/Anonymity/CSDCNetRound.cpp:1180-1220 | at any time of any run two honest servers have pushed the same cleartext and online set in every phase both have pushed |
| DcNetAgreement.CommitsPrecede | src/Anonymity/CSDCNetRound.cpp:521-563 | in any run, a ciphertext folded in matches the only commit recorded from its sender, recorded like all other commits before the local ciphertext was sent |
| DcNetRound.NextSources | src/Anonymity/CSDCNetRound.cpp:1137-1200 | every action keeps: the ciphertexts that honest servers sent are the ones they generated, and what is proposed is the sum of ciphertexts that were sent |
| DcNetRound.PushedSum | src/Anonymity/CSDCNetRound.cpp:1180-1188 | with honest servers only, in every run and phase: what is pushed is the sum of the ciphertexts all servers generated for the online clients pushed with it |
| DcNetRound.RoundDelivers | src/Anonymity/CSDCNetRound.cpp:1137-1537 | from the clients' data to what is pushed, for any order of messages and pattern of omissions: the pushed cleartexts are a run of the DC-net, and a client's messages come out exactly once if and only if none of its open requests was left out before the last two phases |
| ServerSession.ServerAttempt.Reset | src/Session/ServerSession.cpp:75-84 | a restart forgets everything, the proposal included |
| ServerSession.ServerAttempt.TakeUp | src/Session/ServerSession.cpp:347-361 | a waiting server takes up a proposal, with the key it generates for it |
| ServerSession.ServerAttempt.VerifyEnlist | src/Session/ServerSession.cpp:473-525 | an enlist is taken once per server and only for the adopted proposal; the last one fixes the round id |
| ServerSession.ServerAttempt.ProcessAgree | src/Session/ServerSession.cpp:582-622 | an agree is taken once per server, for the own round id and the enlisted key |
| ServerSession.ServerAttempt.ProcessRegister | src/Session/ServerSession.cpp:701-722 | a client is registered once and only for this round |
| ServerSession.ServerAttempt.FinishClientRegister | src/Session/ServerSession.cpp:752-761 | the end of the window closes the registration and nothing else |
| ServerSession.ServerAttempt.ProcessList | src/Session/ServerSession.cpp:805-852 | a list is taken once per server and only if all its entries are for this round; merging is last-writer-wins |
| ServerSession.ServerAttempt.ProcessVerify | src/Session/ServerSession.cpp:909-953 | a verification is taken once per server and only for the own list |
| ServerSession.NextKeepsInv | src/Session/ServerSession.cpp:473-953 | every action keeps: whatever an attempt gathered was signed by the honest servers among its senders, in an attempt of theirs |
| ServerSession.SameRound | src/Session/ServerSession.cpp:559-622 | if some honest server took up a proposal at most once, all attempts of honest servers for it that pass AgreeState have the same round id and server list |
| ServerSession.HonestProposerAgrees | src/Session/ServerSession.cpp:295-324 | with an honest proposer round id, server list and non-empty client lists agree in every run, restart and replay |
| ServerSession.SessionsAgree | src/Session/ServerSession.cpp:891-953 | if one honest server took up a proposal at most once, any two attempts of honest servers at it agree on round id and server list once past AgreeState, and on non-empty client lists at Communicating |
| ServerSession.ClientListsAgree | src/Session/ServerSession.cpp:805-953 | two honest servers that took up a proposal once each and reach Communicating have the same client list, empty or not |
| SessionReplay.ReplaySplitsRound | src/Session/ServerSession.cpp:75-84 | for every number of servers and any honest ones without the proposer: a run in which they complete two sessions for one proposal, so that any two of them communicate in different rounds |
| SessionReplay.AgreementIff | src/Session/ServerSession.cpp:295-361 | for every number of servers and every set of honest ones, all attempts at a proposal agree in all runs if and only if the proposer is honest; with two honest servers, also across servers |
| RoundMachine.Machine.ProcessData | src/Anonymity/RoundStateMachine.hpp:151-164 | the machine after a message, whatever the handler does, is the one the specification gives: refused, buffered, or shown to the handler and filed as handled or, when it fails, as failed |
| RoundMachine.ProcessOutcome | src/Anonymity/RoundStateMachine.hpp:262-308 | refusal and buffering change nothing else; a delivered message was shown to the handler of its own type and phase and is filed as handled, or as failed only if something failed |
| RoundMachine.Machine.ChangeState | src/Anonymity/RoundStateMachine.hpp:112-135 | the end of a cycle, the new phase and state, and the callback, with how they ended |
| RoundMachine.Machine.StateComplete | src/Anonymity/RoundStateMachine.hpp:110-141 | the machine after a transition with everything nested in it: the log is replayed, or lost if the transition was stopped or failed |
| RoundMachine.TransitionLeads | src/Anonymity/RoundStateMachine.hpp:110-141 | under any nesting: phases and sightings only grow, every message stays accounted for, nothing failed without a failure, nothing was lost without a failure or a stop |
| RoundMachine.QuietTransition | src/Anonymity/RoundStateMachine.hpp:110-141 | when the round does nothing, the new state gets exactly the messages that are due, and the others that have to wait keep their order |
| RoundMachine.Drive | src/Anonymity/RoundStateMachine.hpp:110-164 | any sequence of arrivals, completions and forced states leaves the machine as the specification's run does |
| RoundMachine.RunConserves | src/Anonymity/RoundStateMachine.hpp:110-164 | over every run: what arrived is handled, refused, failed, buffered or lost, each once; handlers ran for exactly the handled and failed messages; nothing failed unless the round's code fails, nothing was lost unless it fails or ends a cycle |
| RoundMachine.LossPossibleIff | src/Anonymity/RoundStateMachine.hpp:113-135 | for every behaviour of the round's code: it can lose a message in some configuration and run if and only if it fails somewhere or ends a cycle |
| RoundMachine.CallbackFailureLoses | src/Anonymity/RoundStateMachine.hpp:113-140 | a handler that completes the state whose callback fails: the buffered message is lost and the handled one has failed |
| Overlay.BroadcastHelper | src/ClientServer/Overlay.cpp:155-192 | the packets passed on are those to the connections that the forwarding rule names |
| Overlay.ReachesSplit | src/ClientServer/Overlay.cpp:164-192 | every node behind a packet's target is reached by some packet that the target passes on |
| Overlay.SentApart | src/ClientServer/Overlay.cpp:164-192 | no node is reached by two packets passed on by the same server |
| Overlay.NextKeepsInv | src/ClientServer/Overlay.cpp:103-193 | whichever packet arrives next: packets under way reach disjoint sets of nodes, together everybody not yet reached |
| Overlay.ExactlyOnce | src/ClientServer/Overlay.cpp:103-193 | from any source and in any order of arrival, nobody hears a broadcast twice, it ends after exactly as many arrivals as nodes, and then everybody has heard it |
| SftView.CalcServerMembership | src/SFT/SFTViewManager.cpp:221-246 | the flags are those of the first two thirds of different servers drawn |
| SftView.NextGoodView | src/SFT/SFTViewManager.cpp:85-133 | if some later view avoids all failed servers, the result is the least such view |
| SftView.TooFewMeansNoView | src/SFT/SFTViewManager.cpp:137-140 | once too few servers are left, no view avoids the failed ones |
| SftView.VoteKeepsInv | src/SFT/SFTViewManager.cpp:143-194 | every vote, for or against, keeps: counts are distinct supporters, and a change of view raises the number with the support of two thirds |
| SftView.ChangesShareVoters | src/SFT/SFTViewManager.cpp:143-194 | any two changes of view, at one server or at two, share at least a third of all servers as supporters; views only grow |
| SftView.ViewManager.SetNewView | src/SFT/SFTViewManager.cpp:198-206 | the cached view becomes that of the new number and all votes are cleared |
| SftView.ViewManager.AddViewChangeVote | src/SFT/SFTViewManager.cpp:143-194 | state and return code after a vote; the cached view always matches the view number |
| SftView.ViewManager.AddFailedServer | src/SFT/SFTViewManager.cpp:45-57 | a new failure is recorded once and asks for a change exactly if it concerns the current view |
| SftSlots.InsertInSlot | src/SFT/SFTMessageManager.cpp:273-307 | the message stands in its owner's slot and everything else is zero |
| SftSlots.XorBytes | src/SFT/SFTMessageManager.cpp:348-365 | the bytewise exclusive or |
| SftSlots.EncryptClientMessage | src/SFT/SFTMessageManager.cpp:309-331 | one key for every server in the view and none for the others |
| SftSlots.CreateCipher | src/SFT/SFTMessageManager.cpp:369-402 | the received texts, and the keys of all clients in the round unless the server is outside the view |
| SftSlots.CipherIs | src/SFT/SFTMessageManager.cpp:369-402 | that is a DC-net server ciphertext, in whatever order the lists came |
| SftSlots.GetDecrypted | src/SFT/SFTMessageManager.cpp:404-417 | the sum of all ciphers |
| SftSlots.SlotsRecovered | src/SFT/SFTMessageManager.cpp:404-417 | for every view and assignment, the decrypted buffer holds each participant's message in its slot and zeros in the others |
| SendQueue.Collect | src/Session/SessionSharedState.cpp:162-177 | a batch is whole messages in order, as many as fit; too large ones are passed over |
| SendQueue.DataQueue.AddData | src/Session/SessionSharedState.hpp:188-191 | data goes to the end and no batch changes |
| SendQueue.DataQueue.UnGet | src/Session/SessionSharedState.hpp:205-208 | only the last batch will be offered again |
| SendQueue.DataQueue.GetData | src/Session/SessionSharedState.cpp:156-181 | for any maximum per call: the previous batch becomes final, the next is the fitting messages that follow, and more is reported exactly if a message is left that no longer fits |
| SendQueue.CallKeepsInv | src/Session/SessionSharedState.cpp:156-181 | every call keeps: final batches followed by the queue are everything added, and the last batch is the front of the queue |
| SendQueue.IncomingData | src/Tunnel/SessionExitTunnel.cpp:24-48 | the loop hands over exactly the valid packets of the frames it can read |
| SendQueue.UnframeFrames | src/Tunnel/SessionExitTunnel.cpp:24-48 | joined frames give back exactly the valid packets, though an empty last frame is not seen |
| SendQueue.TunnelDelivers | src/Tunnel/SessionEntryTunnel.cpp:38-45 | a batch of framed packets comes out as exactly the valid ones whose frames fit, in order |
| SendQueue.RunDelivers | src/Tunnel/SessionExitTunnel.cpp:24-48 | over every interleaving of adding, getting with any maxima and taking back: retained batches and the rest of the queue are what was added, and the exit recovers the valid packets of all retained batches if and only if each fits its batch |
| SendQueue.OversizedLost | src/Session/SessionSharedState.cpp:165-169 | a valid packet whose frame is above the maximum leaves the queue and does not come out of the exit |
| JsonText.SanitizedIsEscaped | ext/qt-json/json.cpp:40-50 | the seven replacements one after the other escape character by character |
| JsonRoundTrip.ParseQuoted | ext/qt-json/json.cpp:353-451 | a quoted string is read back whatever it contains and whatever follows |
| JsonRoundTrip.ParseInt | ext/qt-json/json.cpp:456-475 | every 64-bit integer is read back |
| JsonRoundTrip.RoundTrip | ext/qt-json/json.cpp:204-348 | parsing a serialized value with anything behind it that is no part of a number gives the value and stops right behind it |
| JsonRoundTrip.ParseSerialize | ext/qt-json/json.cpp:108-199 | parsing the serialization of any nested value of lists, objects, strings, booleans, 64-bit integers and null returns that value |
| JsonParser.NextToken | ext/qt-json/json.cpp:521-585 | token and index; the index never passes the end |
| JsonParser.ParseStringAt | ext/qt-json/json.cpp:353-451 | text, index and success for every input |
| JsonParser.ParseValueAt | ext/qt-json/json.cpp:204-234 | the parser ends on every input with the index inside the text |
| JsonParser.ParseArrayAt | ext/qt-json/json.cpp:309-348 | the loop over an array ends on every input |
| JsonParser.ParseObjectAt | ext/qt-json/json.cpp:239-304 | the loop over an object ends on every input; a repeated name overwrites |
| JsonParser.Join | ext/qt-json/json.cpp:52-64 | separators stand exactly between the texts |
| JsonParser.Print | ext/qt-json/json.cpp:108-199 | the text of a value |
| JsonParser.PrintAndParse | ext/qt-json/json.cpp:108-234 | printing and parsing again returns the value |

## Left out

- Blame, accusation and rebuttal of the DC-net, and the reconstruction of slot keys from the bootstrap shuffle; the model keeps the accusation flag of a slot and stops there.
- Soundness, zero knowledge and unlinkability of the proofs; hashes, generators, signatures and big-integer arithmetic are parameters or mathematical integers.
- The build variants `CSBR_SIGN_SLOTS`, `CSBR_CLOSE_SLOT` and `CS_BLOG_DROP`: the default build is modelled.
- Direct ElGamal (`DefaultEncrypt`, `DefaultDecrypt`) is outside the model; only the series form is in it.
- `Messaging::StateMachine`: the same buffering scheme as `RoundMachine` with fewer cases.
- Real time: submission windows, flexible deadlines and timers are nondeterministic steps; threads, sockets, connection tables and rosters are sequences and sets.
- Applications, settings, key generation, web services, SOCKS and DNS: interface and configuration.
- NeffShuffle.Verify: a transcript whose vectors have the wrong size, or whose alpha exceeds q, counts as rejected; the source indexes such vectors unchecked.
- NeffRound.ShuffleServer.HandleShuffle: a verification batch is one atomic step, since the flag that would separate them is never set.
- DcNetPads.ServerCiphertext: every handled client is handled by one server; overlapping client lists are an open point in the source.
- DcNetMember.ReadSlots: a slot shorter than a header counts as corrupt, where the source reads past it; messages are handed to the application after the loop rather than inside it, in the same order.
- DcNetMember.Member.GenerateCiphertext: for a slot that does not fit only the length of the ciphertext and its bytes within the phase's length are stated, since the source reads beyond its buffer there.
- DcNetDelivery.ExactlyOnce: phases without corruption, all clients honest, messages of at most 4096 bytes and phase numbers below 2^31.
- DcNetDelivery.DeliveredIff: the same.
- DcNetServers.DcServer.StateComplete: the submission window is one step, and the ciphertext a server commits to is given from outside; `DcNetRound` ties it to what the server generates.
- ServerSession.NextKeepsInv: messages other than signed content are free, so that any server may be shown any enlist message at any time; validity of ephemeral keys and client signatures are not modelled.
- RoundMachine.Machine.StateComplete: what handlers and callbacks do is a finite list of completing, jumping, failing and returning, with a list of answers at the ends of cycles; the log of handled messages and the hook `BeforeStateTransition`, which touches no message, are not modelled.
- SftView.CalcServerMembership: the random numbers of a view are given as a list of indices that is long enough; that the draws go on until it is, is an assumption.
- SftSlots.CreateCipher: at least one client message per server and messages of exactly the slot's length, as the source needs.
- JsonParser.Print: real numbers are not printed; halves of surrogate pairs in escapes become the replacement character, and the conversion between UTF-8 and characters is not modelled.
- DcNetLayout.FillGaps: sums of lengths are mathematical integers, without 32-bit overflow.
