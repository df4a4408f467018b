# Verified models of shuli's protocol cores

A Dafny 4.11 model of the parts of shuli where the correctness argument is not local: the MACsec Key Agreement
participant and its network, the MACsec device, EAP-TLS fragmentation under retransmission, the IKEv2 codec, its
encrypted envelope and its negotiations, the PMKSA cache and the hidden-SSID scan rotation. `dafny verify
dfyconfig.toml` checks all of it.

Each core is first written as functions on values that follow the source branch by branch. Where the source
changes fields or runs loops there is also a class or a method of that form, proved equal to the functions
(`MkaSession`, `MacsecDevice`, `EapTlsMethod`, `EapPeer`, `PmksaCache`, `MkpduCodec`, `IkeCodecLoops`, and the
methods of `IkeSa`, `Selectors` and `Scan`). The theorems are about the functions and so hold of those methods.

- **Wire** (`Wire.dfy`): octets, big-endian numbers, `Option` and `Result` for the source's optional and error
  returns. All error kinds are one `Err`.
- **MKA** (IEEE 802.1X-2020 clause 9). `Mkpdu`, `MkpduRoundTrip`, `MkpduCodec`: the PDU. `Mka`: one participant.
  `MkaInvariant`, `MkaDevice`, `MkaEffects`, `MkaRuns`: what every run of it keeps. `MkaExact`, `MkaSteps`,
  `MkaFrames`: exactly when each thing happens, in terms of the fields of an MKPDU and of the records. `MkaReceive`:
  what the device can receive. `MkaNetwork`, `MkaDistribution`: any number of participants over a wire on which every
  MKPDU may be lost, repeated, delayed and reordered. `MkaElection`, `MkaBringUp`: the key server election, and the
  way from it to a secured group. `MkaSession`: the participant as an object. AES-CMAC and AES Key Wrap are functions
  with the sizes of their algorithms, and unwrapping undoes wrapping; MIs and SCIs are numbers, because big-endian
  octet strings compare as the numbers do.
- **MACsec device** (`Macsec`, `MacsecSlots`, `MacsecRuns`, `MacsecReturns`): the wanted associations, what each
  operation means slot by slot, every configuration handed to the kernel, and a model of how the kernel carries
  packet numbers from one configuration to the next.
- **EAP** (section 4.1 of RFC 3748, section 2.1.5 of RFC 5216). `Eap`: packets. `EapTls`: fragmenter, reassembler
  and peer. `EapDelivery`: end to end. `EapResults`: what the peer concludes and answers over whole conversations. The
  TLS engine is a sink whose answers are any function of what it was fed.
- **IKEv2** (RFC 7296). `IkeCodec`, `IkeRoundTrip`, `IkeCodecLoops`: section 3. `IkeSuite`, `IkeSa`,
  `IkeEnvelope`, `IkeIntegrity`: sections 2.13, 2.14, 2.17 and 3.14. `IkeProposals`, `IkeOffers`: section 2.7.
  `Selectors`, `SelectorLimits`: section 2.9. `Prefix`, `PolicyExact`: CIDR arithmetic and the kernel policy selector.
  Ciphers, MACs and PRFs are functions with the sizes of their algorithms, and decryption undoes encryption.
- **Witnesses** (`Witnesses.dfy`): primitives that obey the assumed laws and a group that meets the assumptions of
  the election theorem, so none of them is empty.
- **Wi-Fi**. `Pmksa`, `PmksaRuns`: the cache. `Scan`: the rotation.

Clocks and random draws are parameters; time is a natural number of nanoseconds.

Six expectations a reader may have do not hold of the code without a condition. Each is proved with its exact
condition and an input at which it fails:

- Handling an MKPDU twice is the same as handling it once, except after it forced a new MI: the peer list is then
  empty, so the same MKPDU is processed as if it were the first (`MkaRuns.ReplayIsNoOp`, `MkaRuns.ReplayAfterReset`).
- The PMKSA cache answers as an unbounded map whose entries expire would, exactly while the unexpired keys together
  with the key being inserted are at most 32; an entry inserted after it expired takes a place like any other
  (`PmksaRuns.InsertRefines`, `PmksaRuns.ExpiredInsertCostsAnEntry`).
- Both ends of an IKE_AUTH exchange protect the same packets while no selector list is longer than 255. The count
  octet of a longer list wraps, and the receiver works on what it still counts (`Selectors.ExchangeExact`,
  `SelectorLimits.SixteenBySixteen`, `SelectorLimits.SeventeenBySixteen`).
- The packet number of a key in the kernel never goes back, exactly if no key id returns to a slot it left
  (`MacsecReturns.NeverRewoundIffNoReturn`, `MacsecReturns.AlternatingReturns`).
- The kernel policy of a selector pair matches exactly the negotiated packets, if and only if both ranges are CIDR
  blocks, each names one port or all, and the destination asks for no protocol the source does not
  (`PolicyExact.FaithfulExactly`, `PolicyExact.TooWide`).
- After an accepted MKPDU a participant can receive from every live peer under its latest key, if and only if the key
  is new, the installed mark on the sender's record was true of the SCI it sends, another live record has that SCI, or
  the sender is not live (`MkaReceive.ReadyToReceive`, `MkaReceive.StaleMark`).

## Model

| member | source | states |
|---|---|---|
| MkpduRoundTrip.RoundTrip | src/wired/mka.rs:339-618 | a built frame followed by any octets parses back to the MKPDU exactly when its fields fit (CKN, peer counts, two-bit fields, no explicit suite, wrapped key under 32 octets), and then it can be built |
| MkpduRoundTrip.BodyRoundTrip | src/wired/mka.rs:364-504 | the body alone reads back whole, set by set |
| MkpduRoundTrip.ReadBodyDecoded | src/wired/mka.rs:364-504 | whatever octets come in, an MKPDU that parses has all fields in range |
| MkpduCodec.BuildEapol | src/wired/mka.rs:507-618 | the growing buffer ends up as the specified frame, error case included |
| MkpduCodec.ParseBody | src/wired/mka.rs:364-504 | the position loop stays in bounds, ends, and reads what the specification reads |
| MkpduCodec.ParseSet | src/wired/mka.rs:395-495 | one parameter set contributes what the specification says, unknown sets nothing |
| MkpduCodec.ReadPeerList | src/wired/mka.rs:317-330 | the chunk loop reads the peer list that printing it would give back |
| MkaNetwork.KeyAgreement | src/wired/mka.rs:1164-1243 | in every state of every network run two participants naming the same latest key hold the same SAK under the same AN |
| MkaNetwork.SafeActivation | src/wired/mka.rs:1133-1151 | when a key server starts transmitting with a key of its own, every peer it counts as live has earlier held that key as its latest with receive on |
| MkaNetwork.NextKeeps | src/wired/mka.rs:973-1253 | every step of the network keeps: distinct MIs, true packets, KNs above all issued ones, held keys genuine |
| MkaNetwork.HeldIsReal | src/wired/mka.rs:1197-1205 | a recorded holding happened in an actual earlier state of the run |
| MkaNetwork.DeliverIs | src/wired/mka.rs:973-1001 | a frame on the wire is either ignored or handled as exactly the MKPDU its sender built |
| MkaDistribution.DistributionReaches | src/wired/mka.rs:1164-1243 | in every run, a member that takes, however late, an MKPDU its live elected key server sent with a key pending holds that key id, SAK and AN |
| MkaInvariant.StepKeeps | src/wired/mka.rs:898-949 | receive, expire, drop, generate and send keep the participant invariant |
| MkaInvariant.InvariantOverRuns | src/wired/mka.rs:898-949 | in every run peer MIs are distinct and never our own; latest key id, SAK and receive flag come together; transmit needs a key; a pending Distributed SAK exists only at a key server and wraps its own latest key |
| MkaInvariant.HandlePduKeeps | src/wired/mka.rs:1003-1253 | the same for any single MKPDU, collisions and resets included |
| MkaDevice.TransmitsWithLatestKey | src/wired/mka.rs:1507-1512 | in every run a participant that transmits has an active transmit SA at its latest AN under its latest key id |
| MkaEffects.PduEffect | src/wired/mka.rs:1003-1253 | an MKPDU changes the keys in one of four ways only: kept, cleared, generated by a key server, adopted from this MKPDU |
| MkaEffects.LocalEffect | src/wired/mka.rs:1300-1489 | steps without a frame can only keep, clear or generate |
| MkaEffects.PduReady | src/wired/mka.rs:1133-1138 | a peer counts as ready only if it did before or has just confirmed our latest key |
| MkaEffects.ActivationNeedsAll | src/wired/mka.rs:1139-1147 | a key server turns transmission on only for the key it already had and with every live peer ready |
| MkaRuns.ReplayIsNoOp | src/wired/mka.rs:1003-1085 | the same MKPDU again changes the participant exactly when the first one forced a new MI and is of a supported version and algorithm |
| MkaRuns.ReplayAfterReset | src/wired/mka.rs:1006-1013 | a session that hears its own MI resets, and the same MKPDU again then changes it |
| MkaRuns.AcceptedOnce | src/wired/mka.rs:1030-1072 | an accepted MKPDU leaves its MN in the sender's record and is stale from then on |
| MkaRuns.StepMn | src/wired/mka.rs:1052-1069 | while a peer record lives, its MN never goes back, and every accepted frame raises it to its own MN |
| MkaRuns.FramesInOrder | src/wired/mka.rs:1052-1069 | over every run, of two frames one living record takes the later has the larger MN |
| MkaRuns.KeyNumbers | src/wired/mka.rs:1462-1464 | the i-th key of a session has KN ((i - 1) mod (2^32 - 1)) + 1, so never zero and increasing until the wrap |
| MkaRuns.GenerationDiscipline | src/wired/mka.rs:1433-1489 | a generated key is under the own MI with another AN, and a holder of its own key generates the next at least 6 s later |
| MkaElection.BestOfIsBest | src/wired/mka.rs:1378-1396 | the election yields a candidate nobody beats in (priority, SCI), the own one on ties, and none only if nobody stands |
| MkaElection.ElectionIgnoresOrder | src/wired/mka.rs:1378-1431 | the outcome is the same for every order of the peer list |
| MkaElection.TakenDecides | src/wired/mka.rs:1131-1131 | every accepted MKPDU leaves the role the election over the resulting records gives |
| MkaElection.ElectionConverges | src/wired/mka.rs:1378-1431 | among mutually live participants, whatever their records say of SCI, priority and role, two full exchange rounds, in any order with repeats, leave exactly the minimum capable participant as key server and everybody naming its SCI; nobody if none is capable |
| MkaElection.ListsInOrder | src/wired/mka.rs:780-798 | a sent MKPDU lists exactly the live peers by greatest (SCI, MI) and the others by greatest MI |
| MkaExact.PduFate | src/wired/mka.rs:1003-1085 | exactly which MKPDUs are ignored and which force a new MI |
| MkaExact.SenderExact | src/wired/mka.rs:1030-1101 | what is recorded of the sender, and that it is live exactly if it was or lists one of our last two MNs |
| MkaExact.AdoptionExact | src/wired/mka.rs:1164-1243 | a distributed key is taken exactly when it comes to a member from its live elected key server with the configured protection, a known suite and a SAK that unwraps to 16 octets, unless it is the latest already; nothing else changes the latest key but generation |
| MkaExact.GenerationExact | src/wired/mka.rs:1433-1505 | the generation step makes a key exactly when a key server has a live peer, all live ones are capable, and its latest key is not its own or a new one is wanted and 6 s are over; which key, AN and distribution then |
| MkaExact.GenerationOnPdu | src/wired/mka.rs:1003-1253 | the same at the end of every accepted MKPDU, and what makes a new key wanted |
| MkaExact.ActivationExact | src/wired/mka.rs:1133-1162 | while the key stays, transmission starts exactly when a key server hears from a live peer and all live ones receive, or a member hears from its elected key server that it transmits |
| MkaSteps.RoleAfterPdu | src/wired/mka.rs:1378-1431 | every accepted MKPDU leaves the role its records call for: lowest priority value, then lowest SCI, among live peers that offer, ourselves on a tie |
| MkaSteps.RecordedExact | src/wired/mka.rs:1024-1124 | exactly who is recorded after an accepted MKPDU, and what of those only heard of |
| MkaSteps.OthersStay | src/wired/mka.rs:1003-1253 | the records of everybody but the sender stay, readiness apart |
| MkaSteps.AcceptedIsAnswered | src/wired/mka.rs:1055-1072 | every MKPDU that is not ignored makes one of our own due, and sending it settles that |
| MkaSteps.ExpireExact | src/wired/mka.rs:1300-1322 | exactly the peers silent for 6 s are forgotten; then the role, the wish for a new key and the receive channels removed |
| MkaSteps.DropExact | src/wired/mka.rs:1343-1368 | without a live peer the key and every security association go, otherwise nothing changes |
| MkaSteps.ResetExact | src/wired/mka.rs:1278-1296 | what a new MI keeps: configuration, key number, association number and device |
| MkaSteps.SendExact | src/wired/mka.rs:1514-1573 | what the own MKPDU says, and that sending it moves the MN only |
| MkaSteps.InitialExact | src/wired/mka.rs:831-889 | a new session has an MKPDU to send, no peers and no keys, and is key server exactly if it may be |
| MkaSteps.SecuredMeans | src/wired/mka.rs:1577-1582 | secured is transmitting with somebody live, and includes a key to receive with |
| MkaReceive.ReadyToReceive | src/wired/mka.rs:1199-1276 | after an accepted MKPDU, unless a distributed key should be taken and cannot, exactly when every live peer with a known SCI has an active receive association under the latest key |
| MkaReceive.NewKeyReceives | src/wired/mka.rs:1455-1499 | a generated key can be received from every live peer with a known SCI at once, and exactly these are marked |
| MkaReceive.ReceivesOverRuns | src/wired/mka.rs:898-949 | over every orderly run a record marked as installed has an active receive association under the latest key |
| MkaReceive.StaleMark | src/wired/mka.rs:1256-1276 | a peer marked as installed before it was live becomes live without a receive association |
| MkaFrames.ActsOnlyOnAuthentic | src/wired/mka.rs:339-362 | a frame changes a participant only if it goes to the group address, comes from another individual one, and ends its body in the ICV the ICK gives for its addresses and octets |
| MkaFrames.AlteredIcvRefused | src/wired/mka.rs:339-362 | of all frames that agree with a built one up to its ICV, exactly the built one is read |
| MkaBringUp.BringUp | src/wired/mka.rs:1126-1253 | in a settled group three rounds take a pending key to everybody: all hold it, transmit with it and are secured |
| MkaBringUp.FromElectionToSecured | src/wired/mka.rs:898-949 | from mutual liveness alone: two rounds elect, the key server makes a key, and three more rounds leave everybody secured with exactly that key |
| MkaSession.MkaSession.constructor | src/wired/mka.rs:831-889 | a new session is the initial participant, after its first election |
| MkaSession.MkaSession.ElectKeyServer | src/wired/mka.rs:1378-1431 | the loop over peers and the role update give the specified election |
| MkaSession.MkaSession.RestartWith | src/wired/mka.rs:1278-1296 | the whole state after a reset to a new MI |
| MkaSession.MkaSession.ExpirePeers | src/wired/mka.rs:1300-1322 | who is dropped, what is requested, and the SCIs returned |
| MkaSession.MkaSession.DropUnsecureSak | src/wired/mka.rs:1343-1368 | keys, flags and device are cleared exactly without a live peer |
| MkaSession.MkaSession.EnsureSak | src/wired/mka.rs:1433-1505 | generates exactly when the specification does, with the whole new state and device |
| MkaSession.MkaSession.HandlePdu | src/wired/mka.rs:1003-1253 | the new state for every MKPDU, stale, colliding and abandoned ones included |
| MkaSession.MkaSession.HandleFrame | src/wired/mka.rs:973-1002 | which frames are looked at, and the new state |
| MkaSession.MkaSession.InstallRxSasForLivePeers | src/wired/mka.rs:1256-1276 | late live peers get the receive SA of the latest key |
| MkaSession.MkaSession.SendMkpdu | src/wired/mka.rs:1514-1573 | the octets sent, and that the counters move only if they fit a frame |
| MkaSession.MkaSession.Turn | src/wired/mka.rs:898-949 | one turn of the session loop is a run of steps, keeps the invariant, keeps the netdev encoding with the latest AN while transmitting, and reports whether the link is secured |
| Macsec.MacsecDevice.InstallTxSa | src/wired/macsec.rs:200-254 | the wanted state, every configuration applied on the way in order, and the encoding SA |
| Macsec.MacsecDevice.InstallRxSa | src/wired/macsec.rs:271-324 | the same for a receive channel |
| Macsec.MacsecDevice.SetTxSaActive | src/wired/macsec.rs:257-268 | activates the SA of this AN and nothing else, and selects it for encoding |
| Macsec.MacsecDevice.RemoveRxSc | src/wired/macsec.rs:145-154 | drops the channels of this SCI and nothing else |
| Macsec.MacsecDevice.ClearSas | src/wired/macsec.rs:157-161 | leaves nothing wanted |
| MacsecRuns.PerformSafe | src/wired/macsec.rs:200-324 | one operation applies only safe configurations and leaves no packet number behind |
| MacsecRuns.PacketNumbersNeverRewound | src/wired/macsec.rs:44-65 | in every run each applied configuration has unique slots, numbers at most the one SA just created in an empty slot, and never changes a key in place |
| MacsecRuns.KernelNeverRewinds | src/wired/macsec.rs:200-324 | after every run the kernel holds exactly the wanted keys, and the last operation leaves the packet number of every key it does not replace where traffic put it |
| MacsecReturns.NeverRewoundIffNoReturn | src/wired/macsec.rs:200-324 | over a whole run and any traffic the packet number of every key id in a slot never decreases exactly when no key id returns to the slot after leaving it |
| MacsecReturns.AlternatingReturns | src/wired/macsec.rs:200-254 | installing one key, another, and the first again on one AN rewinds it |
| MacsecSlots.PerformExact | src/wired/macsec.rs:145-324 | each operation does to every slot what it means there, however the lists are kept |
| MacsecSlots.SlotsExact | src/wired/macsec.rs:145-324 | over every series of operations each slot holds what its own history says, receive associations active from the start |
| Eap.PacketRoundTrip | src/core/eap.rs:45-95 | a built packet followed by anything parses back exactly when it is well formed |
| Eap.ParseExact | src/core/eap.rs:45-95 | octets parse as a packet exactly when they start with its well-formed encoding |
| EapTls.EapTlsMethod.NextTxFragment | src/core/eap_tls.rs:236-266 | the body sent and what stays queued |
| EapTls.EapTlsMethod.QueueTlsOutput | src/core/eap_tls.rs:268-275 | empty output leaves the queue alone |
| EapTls.EapTlsMethod.HandleRequest | src/core/eap_tls.rs:293-450 | the new state and the Response body for every Request, all error returns included |
| EapTls.EapPeer.HandlePacket | src/core/eap.rs:189-293 | the new state and the action for every packet |
| EapTls.EapPeer.SetMethod | src/core/eap.rs:175-181 | the method and its type are installed, nothing else changes |
| EapDelivery.FragmentStep | src/core/eap_tls.rs:318-387 | each fragment but the last is acknowledged and kept; the last hands over the whole message |
| EapDelivery.RetransmissionsInvisible | src/core/eap.rs:227-232 | repeating answered Requests any number of times changes neither state nor number of method runs, and each repeat gets the first Response |
| EapDelivery.EndToEnd | src/core/eap_tls.rs:236-387 | a message of 1 to 65535 octets cut at any size reaches TLS once and whole, with any repeats; the method runs once per distinct Request |
| EapDelivery.AcksDrawFragments | src/core/eap_tls.rs:318-323 | acknowledgements draw the fragments of the answer in order until none is left |
| EapResults.ResultExact | src/core/eap.rs:189-219 | success is reported exactly for an EAP-Success of the last Request and, once TLS started, after its indication; failure exactly for such an EAP-Failure; neither changes the peer |
| EapResults.ResultsInRun | src/core/eap.rs:189-219 | the same at every packet of every conversation, in terms of the Request answered last and of whether a Start came before |
| EapResults.AnswersInRun | src/core/eap.rs:220-293 | in every conversation only Requests are answered, each with a Response of its identifier and its type or a Nak, repeats included |
| EapResults.AnswerRead | src/core/eap.rs:226-293 | what the authenticator reads as the answer to each kind of Request, and when there is none |
| EapResults.MethodExact | src/core/eap_tls.rs:293-450 | what one Request body does: acknowledgement, fragment in sequence, last fragment, impossible length, fragment out of sequence |
| EapResults.OctetsConserved | src/core/eap_tls.rs:318-387 | while nothing is refused, what TLS was fed and what is being collected are together the data of the Requests in order |
| IkeRoundTrip.SaRoundTrip | src/ipsec/ikev2/codec.rs:472-624 | nested proposals, transforms and attributes that fit their length fields are printed and read back |
| IkeRoundTrip.SelectorsRoundTrip | src/ipsec/ikev2/codec.rs:626-741 | traffic selectors whose type matches their addresses are printed and read back |
| IkeRoundTrip.PayloadRoundTrip | src/ipsec/ikev2/codec.rs:743-903 | every payload kind that fits is printed and read back |
| IkeRoundTrip.ChainRoundTrip | src/ipsec/ikev2/codec.rs:909-965 | so are whole chains, from the kind of their first payload |
| IkeRoundTrip.HeaderRoundTrip | src/ipsec/ikev2/codec.rs:129-185 | a version 2 header whose length fits the buffer reads back |
| IkeRoundTrip.MessageRoundTrip | src/ipsec/ikev2/codec.rs:442-463 | every well-formed message decodes, whatever follows it, to its payloads and its header with next payload and length filled in |
| IkeCodecLoops.EncodeSa | src/ipsec/ikev2/codec.rs:472-529 | the nested loops print what the specification prints, error case included |
| IkeCodecLoops.EncodeBody | src/ipsec/ikev2/codec.rs:324-427 | every payload body with its loops over SPIs, selectors and attributes |
| IkeCodecLoops.EncodeChain | src/ipsec/ikev2/codec.rs:909-931 | the chain loop with its next-payload fields and length test |
| IkeCodecLoops.DecodeSa | src/ipsec/ikev2/codec.rs:531-624 | three nested cursor loops stay in bounds on every input, end, and read what the specification reads |
| IkeCodecLoops.DecodeSelectors | src/ipsec/ikev2/codec.rs:663-741 | the same for selectors |
| IkeCodecLoops.DecodeConfig | src/ipsec/ikev2/codec.rs:872-894 | the same for configuration attributes |
| IkeCodecLoops.DecodeSpis | src/ipsec/ikev2/codec.rs:820-863 | the same for the SPIs of a Delete payload |
| IkeCodecLoops.DecodeChain | src/ipsec/ikev2/codec.rs:934-965 | the chain loop ends on every input; trailing octets are an error |
| IkeSa.ComputePrfPlus | src/ipsec/ikev2/crypto.rs:59-80 | the loop yields the first octets of T(1), T(2), ... of prf+ |
| IkeSa.Derive | src/ipsec/ikev2/sa.rs:45-92 | the seven keys are consecutive pieces that use up the key material, in the sizes of the suite |
| IkeSa.CutIsUnique | src/ipsec/ikev2/sa.rs:68-89 | the material determines the keys |
| IkeSa.RolesMatch | src/ipsec/ikev2/sa.rs:94-124 | from the same secrets, what one role sends under is what the other receives under |
| IkeSa.DeriveChild | src/ipsec/ikev2/sa.rs:129-195 | the Child SA keys cut from prf+ over DH secret and nonces |
| IkeSa.ChildKeysAgree | src/ipsec/ikev2/sa.rs:129-195 | endpoints whose IKE keys come from the same secrets derive mirrored Child SA keys, for any child suite, nonces and optional DH secret, whoever started |
| IkeSa.ChildKeysMirror | src/ipsec/ikev2/sa.rs:156-194 | the two roles cut the same material crosswise and use all of it |
| IkeSa.SealMessage | src/ipsec/ikev2/sa.rs:199-255 | the growing buffers end up as the specified message, error returns included |
| IkeEnvelope.SealIs | src/ipsec/ikev2/sa.rs:199-255 | a sealed message is its header and one SK payload of IV, ciphertext and ICV |
| IkeEnvelope.TwoRoleEnvelope | src/ipsec/ikev2/sa.rs:199-296 | whatever one role seals the other decodes and opens to the same payloads, for every cipher and integrity algorithm, padding and the empty chain |
| IkeIntegrity.AcceptedIsAuthentic | src/ipsec/ikev2/sa.rs:258-296 | with an integrity algorithm, a received SK message opens only if its last octets are the code, under the inbound key, of all octets before them, the reserved octet read as zero |
| IkeIntegrity.OpenNeedsIcv | src/ipsec/ikev2/sa.rs:270-282 | the same on header, generic header and body |
| IkeIntegrity.AlteredIcvRefused | src/ipsec/ikev2/sa.rs:199-296 | of all messages that agree with a sealed one up to its ICV the other role opens exactly the sealed one |
| IkeIntegrity.HeaderExact | src/ipsec/ikev2/codec.rs:129-185 | which octets read as a header, and that it encodes back to them |
| IkeProposals.IkeMatchIsEqual | src/ipsec/ikev2/proposal.rs:234-291 | a configured IKE proposal matches a built offer exactly when they are equal |
| IkeProposals.EspMatchIsEqual | src/ipsec/ikev2/proposal.rs:100-124 | an ESP proposal matches exactly when they are equal up to the ignored group |
| IkeProposals.IkeAgreement | src/ipsec/ikev2/proposal.rs:14-178 | over the wire the responder takes the initiator's first proposal it also has, fails exactly when there is none, and the initiator recovers the same suite |
| IkeProposals.EspAgreement | src/ipsec/ikev2/engine.rs:900-913 | the same for ESP in IKE_AUTH up to the ignored group, and each side finds the other's SPI |
| IkeOffers.SelectIkeExact | src/ipsec/ikev2/proposal.rs:58-82 | on any offers: the first configured suite that fits the first IKE offer any fits, and failure exactly when none fits |
| IkeOffers.SelectEspExact | src/ipsec/ikev2/proposal.rs:84-134 | the same for ESP, with and without the group |
| IkeOffers.AnswerExact | src/ipsec/ikev2/proposal.rs:136-179 | an answer reads as exactly the suite the first transforms of its first IKE proposal say |
| Selectors.IntersectionExact | src/ipsec/config.rs:777-805 | the intersection stands for exactly the common packets |
| Selectors.SubsetIsInclusion | src/ipsec/config.rs:810-817 | a selector is a subset exactly when its packets are included |
| Selectors.ComputeNarrow | src/ipsec/ikev2/engine.rs:2133-2154 | the nested loops gather what the specification gathers |
| Selectors.NarrowExact | src/ipsec/ikev2/engine.rs:2133-2154 | narrowing is duplicate-free, covers exactly what is requested and configured, and fails exactly when that is nothing |
| Selectors.ComputeTsFromPayloads | src/ipsec/ikev2/engine.rs:2106-2131 | the loops collect both sides' selectors in order and fail when one is missing |
| Selectors.TsReadsBack | src/ipsec/ikev2/codec.rs:398-406 | a selector list arrives as its first length modulo 256 selectors, whole exactly when it is at most 255 long |
| Selectors.TsArrives | src/ipsec/ikev2/codec.rs:909-965 | a message with two selector lists among other payloads arrives with both lists cut that way, and is not sent exactly when one does not fit its length field |
| Selectors.ExchangeExact | src/ipsec/ikev2/engine.rs:2085-2154 | over the wire and for lists of any length: when the responder fails, what it selects, that the initiator then fails exactly when a narrowed list is a multiple of 256 long, and what it covers otherwise |
| Selectors.BothEndsAgree | src/ipsec/ikev2/engine.rs:973-980 | over the wire, with request and narrowed lists of at most 255: each side's local packets are the other's remote ones, those both allow; the responder fails exactly when a direction has none, the initiator not at all after it |
| SelectorLimits.SixteenBySixteen | src/ipsec/ikev2/engine.rs:2133-2154 | 16 addresses against 16 ports narrow to 256 selectors; the responder succeeds and the initiator then fails |
| SelectorLimits.SeventeenBySixteen | src/ipsec/ikev2/engine.rs:2133-2154 | with 17 addresses both succeed and cover different packets |
| Selectors.NarrowOneFamily | src/ipsec/config.rs:777-805 | narrowed selectors stay within one address family |
| Prefix.BlockIsRange | src/ipsec/config.rs:841-881 | the masked first and last address delimit exactly the addresses that share the prefix |
| Prefix.CommonPrefixIs | src/ipsec/config.rs:917-929 | two addresses share p bits exactly when p is at most their common prefix length |
| Prefix.SmallestBlock | src/ipsec/config.rs:907-929 | the common-prefix block contains the range and lies inside every CIDR block that does |
| Prefix.NetRoundTrip | src/ipsec/config.rs:733-741 | a network's selector converts back to its first address and prefix length, both ways the source converts |
| Prefix.PolicyCovers | src/ipsec/xfrm/policy.rs:43-76 | every packet of a negotiated selector pair is matched by the kernel policy built for it |
| PolicyExact.PolicyIs | src/ipsec/xfrm/policy.rs:43-76 | when a policy is built, and that it matches exactly the packets in the smallest CIDR blocks around the ranges with the source's protocol and the single ports |
| PolicyExact.FaithfulExactly | src/ipsec/xfrm/policy.rs:43-76 | it matches exactly the negotiated packets if and only if both ranges are blocks, ports are one or all, and the protocols agree |
| PolicyExact.TooWide | src/ipsec/xfrm/policy.rs:43-76 | two addresses that are no block and two ports give a policy that matches more |
| PolicyExact.NetIsSmallest | src/ipsec/ikev2/engine.rs:2011-2034 | a selector converts to a network exactly when its ends share a family, and that network is the smallest block around it |
| Pmksa.PmksaCache.Insert | src/wifi/pmksa.rs:154-174 | the list after an insertion, by the specification |
| Pmksa.PmksaCache.Lookup | src/wifi/pmksa.rs:179-194 | the entry found and the list left, with both clock readings |
| Pmksa.PmksaCache.LookupPastReauth | src/wifi/pmksa.rs:200-214 | the same on the other side of the threshold |
| PmksaRuns.PastReauthMayHaveExpired | src/wifi/pmksa.rs:200-214 | an entry that expires between the two readings is still returned |
| Pmksa.PmksaCache.Contains | src/wifi/pmksa.rs:218-228 | whether an unexpired entry of the key is left |
| Pmksa.PmksaCache.Invalidate | src/wifi/pmksa.rs:232-243 | the entry removed and returned |
| Pmksa.PmksaCache.RemoveSsid | src/wifi/pmksa.rs:248-260 | the entries of an SSID are returned, the others kept, both in order |
| Pmksa.PmksaCache.RemoveExpired | src/wifi/pmksa.rs:263-266 | the unexpired entries are kept in order |
| PmksaRuns.OldestIs | src/wifi/pmksa.rs:164-171 | the loop picks an entry of minimal expiry |
| PmksaRuns.InsertedIs | src/wifi/pmksa.rs:154-174 | an insertion keeps keys unique and at most 32 and loses nothing unexpired but, when full, one entry of minimal expiry |
| PmksaRuns.RunGood | src/wifi/pmksa.rs:143-267 | keys stay unique and at most 32 in every run |
| PmksaRuns.InsertRefines | src/wifi/pmksa.rs:154-174 | an insertion agrees with the unbounded map exactly when the unexpired keys with the new one are at most 32 |
| PmksaRuns.ExpiredInsertCostsAnEntry | src/wifi/pmksa.rs:154-174 | with 32 unexpired keys, inserting an expired entry of another key removes an unexpired one |
| PmksaRuns.LookupsRefineMap | src/wifi/pmksa.rs:179-228 | until then every lookup of every run answers as an unbounded expiring map would |
| PmksaRuns.HitsAreFresh | src/wifi/pmksa.rs:65-88 | inserting only new or looked-up entries, every hit is unexpired and comes less than 30240 s after that entry was created |
| Scan.NextScanSsids | src/wifi/scan.rs:1392-1436 | the request and the new cursor by the specification, from any cursor |
| Scan.RotationCovers | src/wifi/scan.rs:1392-1436 | any ceil(n / (m - 1)) consecutive scans probe every hidden SSID, each with the wildcard |
| Scan.SingleCovers | src/wifi/scan.rs:1400-1409 | with one SSID per scan, 2n scans do |
| Scan.WildcardAlternates | src/wifi/scan.rs:1400-1409 | and the wildcard is never left out twice in a row |
| Scan.ScanRounds | src/wifi/scan.rs:1351-1378 | the scan loop ends within max(n, 1) rounds with every hidden SSID probed and the wildcard in every request |

## Left out

- MkaNetwork.KeyAgreement: assumes random MIs never repeat, no participant's 32-bit key number wraps, and at most 255 peers when an MKPDU is sent (more do not fit its list).
- MkaElection.ElectionConverges: assumes that only members are recorded as live, that nobody has recorded an MN still to be sent, and no MN wrap in the two rounds; expiry between the rounds is not part of it.
- MkaSession.MkaSession.Turn: the socket wait is a parameter, the two clock readings on each side of it are one, and the MACsec device exists from the start; failing random generators and kernel calls are not modelled.
- MkaSession.MkaSession.ElectKeyServer: the fields of the latest key, the old key and the role are grouped into one record field each.
- Macsec.MacsecDevice.InstallTxSa: every kernel apply and every netlink request succeeds.
- MkaReceive.ReceivesOverRuns: assumes that a mark on a sender's record is true of the SCI it sends, and that no channel of a forgotten peer is that of a live one that stays; the source keeps neither.
- MkaBringUp.BringUp: no peer expires and no MN wraps within the rounds, and nobody else has named the new key before.
- MkaDistribution.DistributionReaches: assumes that the key server has an individual address other than the member's, and that the member is configured to protect alike.
- EapTls.EapTlsMethod.HandleRequest: the TLS engine takes each complete message whole; record deframing, key export and the detection of the protected success indication belong to it.
- EapDelivery.EndToEnd: assumes the engine accepts the message; after an engine error a repeated last fragment is a new message.
- IkeRoundTrip.MessageRoundTrip: says nothing of messages that do not fit their length fields, which the source truncates.
- IkeEnvelope.TwoRoleEnvelope: needs an SK payload within its 16-bit length field; longer ones the source truncates.
- Selectors.ExchangeExact: says nothing of an answer whose selectors do not fit the 16-bit length of a payload; the responder then fails to send it.
- IkeProposals.EspAgreement: IKE_AUTH only; in CREATE_CHILD_SA a configured proposal without a group also matches offers that have one.
- The IKE event loop, retransmission timers, dead peer detection, NAT traversal and leases: glue around the parts modelled.
- Authentication payloads, certificates, identities, key wrap, CMAC, AES, HMAC and Diffie-Hellman themselves: left abstract.
- Kernel installation of Child SAs and policies beyond the selector: rests on kernel semantics outside the repository.
- Wi-Fi roaming, authentication and connection state, RSNE parsing: driven by code outside the repository.
- The remaining lifetime and reauthentication percentage that the PMKSA cache gives to the driver are not modelled.
- Sockets, netlink, DHCP, sysctl, YAML configuration and display code: plumbing.
