# Verification of the LE Audio unicast server, its codecs and its GATT client

The repository is the host side of an LE Audio device: an ASCS server whose audio stream endpoints (ASEs) are
configured by clients and moved by isochronous-channel events, the octet formats these exchanges use, a broadcast sink,
and a small GATT client engine. This project models its state machines and formats and proves what they keep.

| file | about |
|---|---|
| `Bytes.dfy` | little-endian fields, in-place writes to a buffer, length-type-value elements |
| `CodecConfig.dfy` | codec-specific configuration: one encoder, two independent parsers |
| `Metadata.dfy` | metadata of a BASE and of Enable and Update Metadata commands |
| `AscsTypes.dfy`, `AscsPayload.dfy` | entries of the ASE Control Point: client builders and server parsers |
| `Pacs.dfy` | the published capabilities and the tests made against them |
| `AseMachine.dfy` | the transition table, the moves of the program, and the state machine of ASCS v1.0 they are measured against |
| `Formats.dfy` | the octets of every format built here, in numbers |
| `ControlPoint.dfy`, `TwoPass.dfy`, `TwoPassExactly.dfy`, `RejectedWrites.dfy`, `CpRoundTrip.dfy` | a control point write: its two passes, when they agree, what a rejected write stores, and what a built command does |
| `AscsRuns.dfy`, `AscsDeviations.dfy`, `AscsServer.dfy` | all runs of connections, writes and events; runs that leave the standard; the server with its array of ASEs |
| `AscsEvents.dfy`, `StartReady.dfy`, `Refusals.dfy` | what each event does to each ASE, field by field; data paths that cannot be set up; what is answered to commands that are not granted |
| `Base.dfy`, `BaseRoundTrip.dfy`, `BaseLengths.dfy` | the broadcast structure BASE, and what a wrong announced length does to it |
| `GattOperations.dfy`, `GattDiscovery.dfy`, `CccdStore.dfy` | operation lists, discovery slots, packed CCCDs |
| `PeriodicSync.dfy`, `VolumeControl.dfy`, `BassValidator.dfy`, `Psri.dfy` | sync queue, change counter, length check, set identifiers |

Code that updates state in place is a class or a method over an array, proved equal to a function on values (a step of
the system, or a parser over the rest of the octets); the results are lemmas about those functions. `Run` is any
sequence of steps. Fields called history variables do not exist in the program: they record what happened, so that a
property of the whole past can be stated. A read beyond the end of a buffer, which the program does not prevent
everywhere, is the outcome `Overrun`.

What the stack, the controller and the drivers answer is a parameter of the step (`Env`, `Answer`, the arguments of
events), chosen freely except where a line under "Left out" says otherwise. AES and AES-CMAC are function parameters.

Results worth knowing where the code and what one would expect of it differ:

- A command that was answered with success is applied with the same statuses exactly if it names no ASE twice or is
  Config Codec, Config QoS, Update Metadata or Release (`TwoPassExactly.AgreeExactly`); a Disable that names one twice is
  applied only in part (`TwoPass.NamedTwiceDisagrees`).
- Every state change of every run is a transition of ASCS v1.0 by one who may initiate it, exactly unless it is one of
  four deviations (`AscsRuns.EveryMoveAgainstSpec`): a streaming source whose CIS is lost goes to Disabling, a client
  may start a sink, and may repeat a Release, and an ASE in use becomes idle without passing through Releasing when its
  connection is cleared or set up. Each of them occurs (`AscsDeviations`).
- A rejected write still leaves its QoS values, CIS handles and contexts in the ASEs it came to
  (`RejectedWrites.RejectedWriteOverwrites`).
- Only as many statuses as a write announces are settled, while its entries are bounded by its length: an entry beyond
  the announced count leaves its ASE in Releasing even without a CIS (`AscsRuns.UnannouncedStaysReleasing`).
- A Receiver Start Ready stops at the first data path that cannot be set up, or at the second entry for the same ASE; the
  ASEs before it stream, the later ones do not (`StartReady.FailedSetUpStops`).
- The BAP parser rejects frequency and duration codes without a meaning, the ASCS parser stores zero
  (`CodecConfig.ParsersAgree`, `CodecConfig.ParsersDisagree`). The published capabilities reject no configuration for such a zero.
- The counter of outstanding writes of an operation list has eight bits and counts correctly in every run exactly for
  lists of at most 255 entries (`GattOperations.CountsIffFewEntries`). The list stalls exactly when nothing else is
  outstanding and its next write is refused, or completes before its call returns and has entries behind it
  (`GattOperations.StallsExactly`).
- A BASE whose announced length ends less than eight octets into a subgroup is accepted without it
  (`BaseLengths.AnnouncedLength`). Behind a CCID list the metadata parser skips one octet too many
  (`Metadata.CcidSkipsTooFar`).
- The timeout of a sync request is meant to give at least six opportunities; rounding takes up to 10 ms off it, unless the
  interval is a multiple of 5 ms (`PeriodicSync.SixIntervals`).
- The volume change counter is incremented once per notified client, so that of several clients only the last one is
  told the current value (`VolumeControl.OnlyLastIsCurrent`), and with two clients 128 unseen changes bring it back
  (`VolumeControl.UpdateLost`).

## Model

| member | source | states |
|---|---|---|
| CodecConfig.GetSamplingFreqIndex | gatt_profiles/ga_lib_bap.c:389-405 | A nonzero index leads back to the frequency; index zero means the frequency is not in the table |
| CodecConfig.IndexRoundTrip | gatt_profiles/ga_lib_bap.c:373-532 | The look-ups for frequency and duration are inverse on their tables, and anything else gets the index that reads as absent |
| CodecConfig.FillCsc | gatt_profiles/ga_lib_bap.c:534-600 | Written in place: exactly the octets of the greedy encoder, nothing outside them, and their number |
| CodecConfig.FillThenParse | gatt_profiles/ga_lib_bap.c:416-600 | For every buffer size of at least one: no overrun, a right length octet, and parsing gives the input with only the fields that did not fit zeroed, accepted exactly if what fitted is in the tables; nothing is lost from 20 octets on |
| CodecConfig.GreedyIsTruncate | gatt_profiles/ga_lib_bap.c:534-600 | What the encoder writes is what it would write, with unlimited room, for the configuration without the fields that do not fit |
| CodecConfig.ParseOver | gatt_profiles/le_audio_bap_broadcast.c:284-298 | Parsing a built configuration over another one overrides it field by field |
| CodecConfig.ParseCscStream | gatt_profiles/ga_lib_bap.c:416-465 | The cursor loop computes the parser over the rest of the octets |
| CodecConfig.BapParsesLtvs | gatt_profiles/ga_lib_bap.c:416-465 | On any list of elements, in any order and with repetitions, the BAP parser computes the meaning of the list, and accepts exactly if every code means something |
| CodecConfig.AscsParsesLtvs | gatt_profiles/ga_lib_ascs.c:420-489 | On any list of elements a length octet can announce the ASCS parser accepts, uses all octets, and lets each element override its field |
| CodecConfig.ParsersAgree | gatt_profiles/ga_lib_ascs.c:420-489 | The two parsers give the same configuration on every list the BAP parser accepts, and it rejects exactly those with a code without meaning |
| CodecConfig.ParsersDisagree | gatt_profiles/ga_lib_ascs.c:442-453 | At any frequency code outside the table: the BAP parser rejects, the ASCS parser accepts and stores zero |
| CodecConfig.AscsRejectsElement | gatt_profiles/ga_lib_ascs.c:420-489 | At the first malformed element, behind any list of elements, the ASCS parser stops with "invalid length" or "invalid configuration" and has taken over what stands before it |
| CodecConfig.BapRejectsElement | gatt_profiles/ga_lib_bap.c:416-465 | At the first unknown type the BAP parser rejects, and has taken over what stands before it |
| CodecConfig.BapTrustsTypes | gatt_profiles/ga_lib_bap.c:416-465 | The BAP parser takes an element whatever its length octet says; one longer than what is left is taken and then rejected |
| Formats.ConfigurationOctets | gatt_profiles/ga_lib_bap.c:534-600 | A configuration with all fields is twenty octets: which element, type and value stands where |
| Formats.FrequencyCodes | gatt_profiles/ga_lib_bap.c:373-405 | The frequency of each of the thirteen codes |
| Formats.QosOctets | gatt_profiles/ga_lib_ascs.c:258-274 | Where each value of a Config QoS entry stands, as a number of its octets |
| Formats.CodecOctets | gatt_profiles/ga_lib_ascs.c:243-256 | The same for the head of a Config Codec entry |
| Formats.CommandOctets | gatt_profiles/ga_lib_ascs.c:276-327 | The same for metadata of a command with contexts, program info and vendor data |
| Formats.MetadataOctets | gatt_profiles/ga_lib_bap.c:659-719 | The same for metadata of a BASE with contexts, program info and upper-layer data |
| Formats.BaseOctets | gatt_profiles/le_audio_bap_broadcast.c:51-75 | The same for the head of a BASE, and that nothing stands between it and the subgroups |
| Formats.GroupOctets | gatt_profiles/le_audio_bap_broadcast.c:76-91 | The same for a subgroup |
| Metadata.FillMetadata | gatt_profiles/ga_lib_bap.c:659-719 | Written in place: exactly the metadata octets, with the length octet patched last |
| Metadata.BuildCpMetadataCmd | gatt_profiles/ga_lib_ascs.c:276-327 | Written in place: exactly the octets of the command entry |
| Metadata.GetMetadataStream | gatt_profiles/ga_lib_bap.c:602-657 | The cursor loop computes the parser over the rest of the octets, with the CCID skip as written |
| Metadata.MetadataParsesOn | gatt_profiles/ga_lib_bap.c:602-719 | For every metadata whose length its octet can carry: the length octet is right, and parsing it is parsing what stands behind the contexts, over those contexts that fitted |
| Metadata.MetadataRoundTrip | gatt_profiles/ga_lib_bap.c:602-719 | The contexts that fitted come back over the stored ones, whatever follows, unless opaque upper-layer data begin with an element the parser goes into |
| Metadata.ElementsParseOn | gatt_profiles/ga_lib_bap.c:602-657 | Contexts in any order and number are taken one after the other |
| Metadata.ElementsThenOther | gatt_profiles/ga_lib_bap.c:602-657 | What ends the parse behind any contexts: a length beyond what is left, an unknown type, or a CCID list at the end; the contexts taken so far are kept |
| Metadata.ElementsThenInvalid | gatt_profiles/ga_lib_bap.c:623-640 | A context with an unassigned bit is stored, and then the metadata is rejected |
| Metadata.CcidSkipsTooFar | gatt_profiles/ga_lib_bap.c:641-650 | Behind a CCID list that is not last the first octet of the next element is skipped too |
| Metadata.UpperLayerOverrides | gatt_profiles/ga_lib_bap.c:633-640 | Upper-layer data with a streaming context of their own override it; the contexts come back exactly if it is the same |
| Metadata.CommandRoundTrip | gatt_profiles/ga_lib_ascs.c:276-327 | The same for the metadata of a control point command |
| AscsPayload.BuildCpConfigCodec | gatt_profiles/ga_lib_ascs.c:243-256 | Written in place: exactly the octets of the entry |
| AscsPayload.BuildCpConfigQos | gatt_profiles/ga_lib_ascs.c:258-274 | Written in place: exactly the sixteen octets of the entry |
| AscsPayload.CscLoopStream | gatt_profiles/ga_lib_ascs.c:420-489 | The loop with its eight-bit remaining length computes the parser over the rest of the octets |
| AscsPayload.ParseCodecConfigStream | gatt_profiles/ga_lib_ascs.c:387-510 | The in-place parse of a codec entry, with its early ends |
| AscsPayload.ParseConfigQos | gatt_profiles/ga_lib_ascs.c:512-576 | Success implies fifteen octets used and every value in range; the cursor never leaves the octets |
| AscsPayload.QosAnsweredExactly | gatt_profiles/ga_lib_ascs.c:512-576 | On any octets: success if and only if there are fifteen with all values in range, otherwise "invalid length", or "invalid configuration" with the reason of the first value that offends |
| AscsPayload.CodecRoundTrip | gatt_profiles/ga_lib_ascs.c:243-510 | For every buffer size a built Config Codec entry is read back to its last octet, whatever follows: all of it from 28 octets on, and otherwise without the fields that did not fit |
| AscsPayload.QosRoundTrip | gatt_profiles/ga_lib_ascs.c:258-576 | A built Config QoS entry with values in range is read back in full |
| AscsPayload.MetadataEntryRoundTrip | gatt_profiles/ga_lib_ascs.c:276-601 | The contexts of a built entry that fitted are read back over the stored ones and the cursor ends behind the entry |
| Pacs.FillLc3CodecParam | lehs_pacs.c:140-197 | The loop over a record computes the capabilities, or nothing where it reads on behind a value that is cut off |
| Pacs.NumBitSet | lehs_pacs.c:199-209 | Clearing the lowest bit until nothing is left counts the bits set |
| Pacs.VerifyAudioConfig | lehs_pacs.c:120-333 | The verdict on a configuration for the one record of a direction and its location |
| Pacs.ReadsCapability | lehs_pacs.c:140-197 | Each element of a record, in any order and whatever its length octet says, sets its own capability |
| Pacs.ComparesExactly | lehs_pacs.c:211-303 | The comparison with any capabilities, value by value and bit by bit |
| Pacs.VerifiedExactly | lehs_pacs.c:211-333 | The whole verdict: what the record supports, at a location that the channel allocation and the configured locations share, if both are given |
| Pacs.ContextSupported | lehs_pacs.c:98-118 | A context is supported exactly if it has one of the twelve assigned bits |
| Pacs.AcceptedExactly | lehs_pacs.c:211-303 | Exactly these configurations pass the record comparison: LC3, 26 to 100 octets, the supported frequencies of the direction and both durations, or an absent field; blocks and channels never decide |
| AseMachine.TableAgainstSpec | gatt_profiles/ga_lib_bap.c:732-841 | The table grants a client every operation ASCS v1.0 grants it, to the same end, and beyond these exactly two: Receiver Start Ready for a sink and a Release repeated in Releasing |
| AseMachine.HistoryAgainstSpec | gatt_profiles/ga_lib_bap.c:732-841 | Every move of a history the program can make is a transition of the standard, exactly unless it is one of the four enumerated deviations |
| AseMachine.NeverMax | gatt_profiles/ga_lib_bap.c:732-841 | A history of the program's moves never ends in the marker of forbidden entries, nor a sink in Disabling |
| AseMachine.ConfiguredInOrder | gatt_profiles/ga_lib_bap.c:737-814 | A history of the program's moves into Enabling or Streaming holds a last Config Codec, then a last Config QoS, then a last Enable, with no visit to Idle since |
| ControlPoint.PreferencesInRange | lehs_ascs.c:168-191 | A client that takes over the server's preferences stays inside the ranges the server insists on in Config QoS |
| ControlPoint.PreferencesAre | lehs_ascs.c:168-191 | Each preference for each latency, direction, frame duration and frequency |
| TwoPass.CheckKeepsState | lehs_ascs.c:196-387 | The check pass of any write, well-formed or not, leaves every state, codec configuration, data path and history alone |
| TwoPass.RejectedWriteMovesNothing | lehs_ascs.c:389-409 | A write whose check pass is not accepted moves no ASE |
| RejectedWrites.CheckOverwrites | lehs_ascs.c:220-381 | The check pass of any write leaves in each ASE exactly what the entries it came to store there: QoS values that are all in range, with the CIS handle, or contexts, whether then verified or not |
| RejectedWrites.RejectedWriteOverwrites | lehs_ascs.c:292-319 | That is all a rejected write changes: of an ASE in use the QoS values and CIS handle for Config QoS, the contexts for Enable and Update Metadata, nothing for any other operation or after a bad header |
| RejectedWrites.RejectedWriteStoresQos | lehs_ascs.c:292-304 | At an input: a Config QoS for an ASE that may be configured, and for a second that may not, is rejected and leaves the first with the new values |
| TwoPass.Fieldwise | gatt_profiles/ga_lib_bap.c:602-657 | Whatever the octets, each context of a parse is either one they carry or the stored one, and the outcome does not depend on the stored ones |
| TwoPass.ReparseMetadata | lehs_ascs.c:306-319 | Parsing the same octets over what they already stored changes nothing |
| TwoPass.HandleTwice | lehs_ascs.c:244-378 | The apply pass over an entry the check pass let through uses the same octets, answers the same status, and moves the ASE exactly on success |
| TwoPass.ApplyAgreesWithCheck | lehs_ascs.c:196-413 | For an accepted write naming distinct ASEs, with data paths set up, the apply pass accepts too with the same statuses, and beyond that moves exactly the successful ASEs to the table's next state; every other ASE is untouched |
| TwoPassExactly.AgreeExactly | lehs_ascs.c:196-413 | For every accepted write with data paths set up, the apply pass accepts it with the same statuses if and only if it names no ASE twice or its opcode is Config Codec, Config QoS, Update Metadata or Release |
| TwoPassExactly.RepeatedEntry | lehs_ascs.c:244-378 | An entry of these operations is applied with the same octets and status also to an ASE that an earlier entry has moved, and leaves it in the table's next state |
| TwoPassExactly.RepeatedMoves | lehs_ascs.c:367-413 | What these operations do however often they name an ASE: each ASE an entry with status success names ends in the table's next state, and every other keeps its state |
| TwoPass.NamedTwiceDisagrees | lehs_ascs.c:336-413 | The failure at one input: a Disable that names an ASE twice is accepted by the check, and stopped by the apply pass after its first entry |
| CpRoundTrip.EntryGranted | lehs_ascs.c:222-381 | The server recovers the arguments of a built entry and moves the cursor exactly behind it |
| CpRoundTrip.CommandUnderstood | lehs_ascs.c:196-447 | A built command for up to three distinct ASEs is accepted by both passes and used up; every status is success and every named ASE ends in the next state holding exactly what its entry carries: all its arguments if the buffer had room, with the first channel allocation if the entry has none, and the preferences that go with the configuration |
| StartReady.FailedSetUpStops | lehs_ascs.c:321-376 | Any accepted Receiver Start Ready from any connection: the ASEs of the entries before the first that cannot set up its data path, or names an ASE again, stream; every other keeps its state and history |
| StartReady.CheckSetsUpNothing | lehs_ascs.c:321-334 | Whether data paths can be set up decides nothing in the check pass of any write |
| Refusals.HeaderAnswered | lehs_ascs.c:203-218 | The code for each bad header; nothing changes |
| Refusals.UnknownAseAnswered | lehs_ascs.c:222-243 | A command for an ASE the connection does not have is answered with success, its status with "invalid ASE id"; nothing behind it is looked at and nothing changes |
| Refusals.CommandAnswered | lehs_ascs.c:196-447 | A command for one ASE, whatever it asks for: the code of the response, the code and reason of its status, and what the ASE is left with |
| Refusals.PrefixRefused | lehs_ascs.c:244-378 | No operation with arguments accepts an entry that is cut off anywhere, and the ASE stays as it is |
| AscsRuns.GoodHandle | lehs_ascs.c:225-378 | Handling one entry keeps the invariant of an ASE, in either pass and for any octets |
| AscsRuns.EveryRunIsGood | lehs_ascs.c:196-447 | In every run of connections, disconnections, writes and events each history is a chain of the program's moves, QoS values are in range from QoS Configured on, every state but Idle holds a codec configuration the record accepts, and a sink streaming without a Receiver Start Ready since it was last Idle has its data path |
| AscsRuns.EveryMoveAgainstSpec | lehs_ascs.c:372-438 | Every recorded move of every run, the clearing of a connection included, is a transition of ASCS v1.0 by one who may initiate it, exactly unless it is one of the four deviations |
| AscsRuns.EveryChangeIsAMove | lehs_ascs.c:36-447 | Nothing moves unrecorded: a step of a run that changes the state of an ASE adds moves to its history, the first from the old state and the last to the new one, and no step removes any |
| AscsDeviations.ScriptRuns | lehs_ascs.c:196-447 | From the start of the program, any allowed sequence of built commands for an ASE of any connection takes it along the table, is its whole history, and moves no other ASE |
| AscsDeviations.SinkStreamsByDataPath | lehs_cis.c:108-140 | A run in which a sink streams since its data path came up, without a Receiver Start Ready |
| AscsDeviations.ClientStartsSink | gatt_profiles/ga_lib_bap.c:771-780 | A run in which a client starts a sink, which is no transition of the standard |
| AscsDeviations.ClientReleasesAgain | gatt_profiles/ga_lib_bap.c:804-813 | A run in which a client repeats a Release, which is no transition of the standard |
| AscsDeviations.SourceDisablesOnLoss | lehs_cis.c:169-179 | A run in which a streaming source that loses its CIS goes to Disabling, which is no transition of the standard |
| AscsDeviations.ClearedWhileStreaming | lehs_gatt.c:567-577 | A run in which the connection of a streaming ASE ends, which clears it: no transition of the standard |
| AscsRuns.NoSinkDisables | gatt_profiles/ga_lib_bap.c:816-841 | In no run does a sink reach Disabling, or any ASE the marker |
| AscsRuns.EveryRunConfiguresInOrder | lehs_ascs.c:244-378 | In every run the operations that configured an ASE happened in order since it was last Idle |
| AscsEvents.WrittenStaysInConnection | lehs_ascs.c:76-447 | Whatever a client of any connection writes, no ASE of another connection changes, and none at all if the connection is not in use |
| AscsEvents.CommandWritten | lehs_ascs.c:196-447 | A built command of a client of any connection, written: every ASE of this connection that it names holds what its entry carries, in the next state or, without a CIS to wait for, in the one behind it; no other ASE changes |
| AscsEvents.ConnectingGivesAses | lehs_ascs.c:36-74 | The three ASEs of a new connection, value by value; no other ASE changes |
| AscsEvents.DisconnectingClearsAses | lehs_gatt.c:567-577 | The ASEs of a connection that ends, value by value; no other ASE changes |
| AscsRuns.SettleLeavesNoneWaiting | lehs_ascs.c:417-444 | After the settling no ASE answered for is left in Releasing or Disabling without a connected CIS, and no ASE that is not waiting is touched |
| AscsRuns.WriteLeavesWaiting | lehs_ascs.c:389-447 | After an accepted write an ASE is left so if and only if the apply pass left it so and none of the announced number of statuses answers for it; every ASE not left so is as the apply pass left it |
| AscsRuns.UnannouncedStaysReleasing | lehs_ascs.c:417-438 | At an input: of a Release with two entries that announces one, the second ASE stays in Releasing |
| AscsEvents.RequestBinds | lehs_cis.c:196-238 | A requested CIS gives its handle to the first sink coupled to it, and to no other ASE |
| AscsEvents.EstablishedBinds | lehs_cis.c:79-106 | An established CIS gives its handle to the first ASE of each direction coupled to it, and to no other; one that failed changes nothing |
| AscsEvents.DataPathComesUp | lehs_cis.c:108-140 | A data path that comes up on a connected CIS, while the stack knows some ASE's: a sink in Enabling streams, any other ASE only has its data path; without one of the conditions nothing changes, and never another ASE |
| AscsEvents.LosingTheCis | lehs_cis.c:142-194 | Losing its CIS takes the first ASE of each direction coupled to it from Releasing to Idle without CIG and CIS, from Disabling to QoS Configured, and from Streaming to QoS Configured or, for a source, Disabling, and takes its data path; no other field and no other ASE changes |
| AscsServer.Server.constructor | lehs_gatt.c:567-577 | A server starts with all ASEs cleared |
| AscsServer.Server.InitLocalAseData | lehs_ascs.c:36-74 | The loop gives the connection fresh ASEs and touches no other |
| AscsServer.Server.FreeConnection | lehs_gatt.c:567-577 | The end of a connection clears its ASEs and touches no other |
| AscsServer.Server.FindAse | lehs_ascs.c:76-92 | The first ASE of the connection with the id |
| AscsServer.Server.ConfigureAse | lehs_ascs.c:273-288 | Taking over a codec configuration, with the default channel allocation and the preferences |
| AscsServer.ParseMetadataStream | gatt_profiles/ga_lib_ascs.c:578-601 | The in-place parse of a metadata entry |
| AscsServer.Server.HandleEntry | lehs_ascs.c:225-378 | The switch over the operations changes exactly the ASE and the status that one entry of a pass changes |
| AscsServer.Server.CheckWriteReq | lehs_ascs.c:196-387 | The loop over the write leaves the ASEs and statuses of a pass and returns its verdict |
| AscsServer.Server.HandleWriteReq | lehs_ascs.c:389-447 | A write is one step: both passes and the settling |
| AscsServer.Server.SettleAse | lehs_ascs.c:424-438 | One ASE leaves Releasing or Disabling if its CIS is not connected |
| AscsServer.Server.SettleAll | lehs_ascs.c:417-444 | The loop over the statuses settles the ASEs they name |
| AscsServer.Server.FindAseWithCisId | lehs_cis.c:7-40 | The first ASE of any connection coupled to the CIS in this direction |
| AscsServer.Server.KnowsSomeCis | lehs_cis.c:42-77 | The look-up, whose parameter is shadowed, finds something exactly if some ASE's CIS is known |
| AscsServer.Server.OnCisRequest | lehs_cis.c:196-238 | One step: the sink coupled to the CIS gets its handle |
| AscsServer.Server.OnCisEstablished | lehs_cis.c:241-253 | One step: both directions coupled to the CIS get its handle, unless it failed |
| AscsServer.Server.OnDataPathSetup | lehs_cis.c:108-140 | One step: the data path is up and a sink in Enabling streams |
| AscsServer.Server.HandleDisconnection | lehs_cis.c:142-194 | The ASE of one direction loses its CIS, every other is untouched |
| AscsServer.Server.OnCisDisconnected | lehs_cis.c:255-265 | One step for both directions |
| Base.BuildBaseData | gatt_profiles/le_audio_bap_broadcast.c:51-97 | Written in place, nested loops: exactly the structure's octets, the length patched, zero if the eight-bit count exceeds the destination |
| Base.ParseBisesStream | gatt_profiles/le_audio_bap_broadcast.c:282-301 | The inner loop computes the parser of the BISes and its cursor |
| Base.ParseHeadStream | gatt_profiles/le_audio_bap_broadcast.c:256-280 | The fields of a subgroup with their length checks |
| Base.ParseBaseInfo | gatt_profiles/le_audio_bap_broadcast.c:237-305 | The nested loops compute the parser, the announced number of subgroups included |
| BaseRoundTrip.ParseAround | gatt_profiles/le_audio_bap_broadcast.c:256-280 | A subgroup with any configuration and metadata is taken as far as their parsers got, be they accepted or rejected |
| BaseRoundTrip.AnyBis | gatt_profiles/le_audio_bap_broadcast.c:282-301 | The same for a BIS, over the configuration of its subgroup |
| BaseRoundTrip.BuiltIsRead | gatt_profiles/le_audio_bap_broadcast.c:51-305 | For any upper-layer data, whenever a structure is built without running out of its destination, the outcome of parsing it and all it was built from comes back as far as it fitted, but for the contexts, which are what the metadata parser reads on behind those written |
| BaseRoundTrip.BuiltIsReceived | gatt_profiles/le_audio_bap_broadcast.c:51-305 | Whenever a structure in range is built without running out of its destination, parsing gives the same delay, subgroups, codec ids and BIS indices, the contexts, and each BIS with the subgroup's configuration overridden by its own fields; of configurations and contexts, what fitted |
| BaseRoundTrip.BufferIsReceived | gatt_profiles/le_audio_bap_broadcast.c:51-305 | What the builder leaves in its buffer is an element with the right length octet that the parser reads as just said |
| BaseRoundTrip.NothingCut | gatt_profiles/le_audio_bap_broadcast.c:75-81 | With twenty octets to spare in the destination everything fitted |
| BaseRoundTrip.AlwaysFits | gatt_profiles/le_audio_bap_broadcast.c:17-106 | A structure of the program's size with contexts as its only metadata takes at most 162 of 252 octets and is received in full |
| BaseLengths.AnnouncedLength | gatt_profiles/le_audio_bap_broadcast.c:237-305 | A structure announced with any length: the parser takes the subgroups within it, and accepts exactly if these are all or fewer than eight octets are left for the next |
| BaseRoundTrip.ReceivedIsStable | gatt_profiles/le_audio_bap_broadcast.c:51-305 | Building what was received, of a structure that came through in full or cut, and parsing it again, into fresh structures or into those that hold it, changes nothing |
| GattOperations.OperationList.EnableNotification | gatt_profiles/gatt_interface.c:912-968 | The loop issues the next entry with a descriptor; re-entered by a completion within the call, it does nothing |
| GattOperations.OperationList.HandleOperationComplete | gatt_profiles/gatt_interface.c:1072-1118 | A completion counts down and reports the end or goes on |
| GattOperations.OperationList.Write | gatt_profiles/gatt_interface.c:930-944 | A write completed at once counts down and does not issue the next entry |
| GattOperations.EveryRun | gatt_profiles/gatt_interface.c:912-1118 | In every run, of completions, extra executes and refused writes, entries with descriptors are issued once each and in order, the counter is issued minus completed, and the callback has fired, once, exactly when all is done |
| GattOperations.UsableExactly | gatt_profiles/gatt_interface.c:924-950 | The list of entries to issue holds each index with a descriptor exactly once, in increasing order |
| GattOperations.StepProgress | gatt_profiles/gatt_interface.c:912-1118 | Twice the entries left plus the writes outstanding decreases on every step that changes the list, but for the callback of a list with nothing to do |
| GattOperations.RunsEnd | gatt_profiles/gatt_interface.c:912-1118 | No run changes the list more often than twice per entry and once for the callback |
| GattOperations.StepStallsExactly | gatt_profiles/gatt_interface.c:924-966 | A step leaves nothing outstanding and the callback uncalled exactly if nothing else was outstanding and the next write is refused, or completes at once with entries behind it |
| GattOperations.StallsExactly | gatt_profiles/gatt_interface.c:912-1118 | The same after any run that has begun |
| GattOperations.NoStall | gatt_profiles/gatt_interface.c:940-944 | So never after a write that was sent and is not yet completed |
| GattOperations.SynchronousStall | gatt_profiles/gatt_interface.c:930-944 | At two inputs: a first write completed at once stalls a list of two entries, and completes a list of one |
| GattOperations.CountsIffFewEntries | gatt_profiles/gatt_interface.c:932-960 | The eight-bit counter is right in all runs if and only if at most 255 entries have descriptors |
| GattDiscovery.ServiceDiscovery.CopyUnique | gatt_profiles/gatt_interface.c:526-541 | The first slots get the characteristics of the profile, the rest is untouched |
| GattDiscovery.ServiceDiscovery.Repeat | gatt_profiles/gatt_interface.c:543-560 | The next slots are all for one characteristic |
| GattDiscovery.ServiceDiscovery.HandleCharacteristic | gatt_profiles/gatt_interface.c:232-260 | The first free slot for the UUID is filled, no other changes |
| GattDiscovery.ServiceDiscovery.HandleDescriptor | gatt_profiles/gatt_interface.c:262-343 | A declaration is remembered; a CCCD goes to the first slot with the remembered handle |
| GattDiscovery.KthSlotHoldsKth | gatt_profiles/gatt_interface.c:232-260 | After any discovered characteristics the k-th slot of a UUID holds the k-th characteristic of that UUID, or nothing if there were fewer |
| GattDiscovery.NoHandleTwice | gatt_profiles/gatt_interface.c:232-260 | No report of a characteristic fills two slots: any two filled slots hold two different reports, and share a handle only if one was reported twice |
| GattDiscovery.DescriptorFollowsDeclaration | gatt_profiles/gatt_interface.c:262-343 | The first slot with a handle has the last CCCD reported between its declaration and the next one; an empty slot only one before any declaration |
| GattDiscovery.DiscoveryPairsDescriptors | gatt_profiles/gatt_interface.c:232-343 | After a whole discovery the first slot with a handle has the CCCD of its own characteristic and any later one with that handle none; every filled slot is the first unless a handle was reported twice |
| CccdStore.Connection.GetCccd | lehs_gatt.c:922-949 | The two bits behind a value handle, zero for an unknown one |
| CccdStore.Connection.SetCccd | lehs_gatt.c:951-990 | Clearing and filling the field in place stores the value |
| CccdStore.Connection.HandleWrite | lehs_gatt.c:1331-1353 | A write to a descriptor of two octets is stored, of another length refused, to another handle not taken |
| CccdStore.Connection.SendNotification | gatt_profiles/gatt_interface.c:474-524 | Too long, without a registered look-up, suppressed, without a buffer, indicated or notified; an indication wins |
| CccdStore.AnsweredExactly | lehs_gatt.c:1331-1353 | Which writes are not taken, refused or stored; only the last changes anything |
| CccdStore.StoreThenRead | lehs_gatt.c:907-990 | A store changes one entry of the words, to the low two bits of the value, and no other |
| CccdStore.ReadsLastWrite | lehs_gatt.c:907-990 | After any requests every descriptor reads the low two bits of the first octet of its last write, or what it held before |
| CccdStore.SendingFollowsLastWrite | gatt_profiles/gatt_interface.c:489-511 | A value is indicated, notified or suppressed exactly as the last write to its own descriptor asks, an indication before a notification, unless it is too long, has no registered look-up or no buffer |
| PeriodicSync.BroadcastSink.CreatePeriodicSync | lehs_bis.c:425-493 | A request is queued, dropped for want of memory, or issued with three quarters of its interval as timeout; without a request the queue goes on |
| PeriodicSync.BroadcastSink.OnSyncEstablished | lehs_bis.c:224-261 | One step: the command, if there was one, is answered, and the next one, or the same again, is issued |
| PeriodicSync.EveryRun | lehs_bis.c:224-493 | In every run at most one command is outstanding and the flag says so; and as long as timeouts name the source of the command they answer, the accepted requests are, in order, those finished, the one outstanding and those queued |
| PeriodicSync.StepConservesExactly | lehs_bis.c:239-260 | A step keeps the accepted requests in order and complete if and only if it is not a timeout that names another source than the command it answers |
| PeriodicSync.ServedInOrder | lehs_bis.c:224-493 | The k-th end is that of the k-th accepted request, however many timeouts came before |
| PeriodicSync.SixIntervals | lehs_bis.c:470-471 | The timeout is six intervals rounded down to 10 ms, and so six in full exactly for multiples of 5 ms |
| PeriodicSync.NextCommand | lehs_bis.c:237-260 | After a timeout the source it names is tried before any other; after any other end the outstanding request is finished and the oldest queued one is next |
| VolumeControl.VolumeControlService.NotifyVolumeState | lehs_vcs.c:7-21 | The loop over the connections, with what each is told and the counter it leaves |
| VolumeControl.VolumeControlService.SetVolume | lehs_vcs.c:23-63 | A new volume is stored and every client told, an unchanged one is neither |
| VolumeControl.VolumeControlService.HandleControlPointWrite | lehs_vcs.c:65-107 | The opcode, length and counter checks, in this order, and the command |
| VolumeControl.AnsweredExactly | lehs_vcs.c:65-107 | Which writes get which answer; any but success changes nothing and tells nobody |
| VolumeControl.AcceptedCommand | gatt_profiles/ga_lib_vcs.c:73-120 | For each opcode the volume and mute state it leaves; if they are new, exactly the connections in use are told them, in order, with the counters that follow the one sent |
| VolumeControl.OnlyLastIsCurrent | gatt_profiles/ga_lib_vcs.c:122-141 | Of the clients told about a change exactly the last one is told the counter that holds afterwards |
| VolumeControl.NoLostUpdate | lehs_vcs.c:65-107 | A connected client's write with the counter it read is accepted exactly if the increments since are a multiple of 256, and with fewer than 256 exactly if nothing changed since |
| VolumeControl.UpdateLost | gatt_profiles/ga_lib_vcs.c:130-133 | With two clients, after 128 changes a stale write is accepted |
| VolumeControl.StepsSaturate | gatt_profiles/ga_lib_vcs.c:78-118 | Repeated steps saturate at 0 and 255, and a step without effect is no change |
| BassValidator.ValidateNumSubgroupLen | gatt_profiles/ga_lib_bass.c:133-167 | The loop decides whether the groups fill the octets; its sixteen-bit length never underflows |
| BassValidator.ValidateOpcodeLength | gatt_profiles/ga_lib_bass.c:169-217 | The verdict for each operation |
| BassValidator.AcceptsExactlyGrammar | gatt_profiles/ga_lib_bass.c:133-217 | A payload with subgroups is accepted if and only if it is the fixed fields, a count, and exactly that many groups with nothing left over |
| Psri.GeneratePrand | gatt_profiles/ga_lib_csis_psri.c:53-66 | The random part, bits set and cleared in place |
| Psri.PrandBits | gatt_profiles/ga_lib_csis_psri.c:58-62 | Marker bits 01, and 22 random bits that are neither all zero nor all one |
| Psri.IdentifierOctets | gatt_profiles/ga_lib_csis_psri.c:68-132 | Which octet of the hash and of the random part each octet of an identifier is |
| Psri.GeneratePsri | gatt_profiles/ga_lib_csis_psri.c:68-90 | Hash and random part, each reversed into the identifier |
| Psri.CheckIfBelongsToCoordinatedSet | gatt_profiles/ga_lib_csis_psri.c:290-340 | The scan over the advertising data, with its sixteen-bit remaining length |
| Psri.ResolvesFirst | gatt_profiles/ga_lib_csis_psri.c:311-340 | On well-formed advertising data the resolution is true exactly if there is a set identifier and the first one matches under the key |
| Psri.ResolvesPastTheEnd | gatt_profiles/ga_lib_csis_psri.c:311-340 | On advertising data that end inside an element the length wraps, and the resolution goes on behind it |
| Psri.GeneratedResolves | gatt_profiles/ga_lib_csis_psri.c:53-340 | An identifier generated under a key, behind any other elements, resolves under it |
| Psri.Invert | gatt_profiles/ga_lib_csis_psri.c:134-140 | The octets reversed, nothing else changed |
| Psri.Crypt | gatt_profiles/ga_lib_csis_psri.c:230-288 | The mask is written out and the input added to it in place; an input in the same memory is overwritten first, and the output is zero |
| Psri.MaskIsK1 | gatt_profiles/ga_lib_csis_psri.c:142-256 | The mask is what the standard's k1 derives from the link key and the two strings, for a MAC on octets in reverse order |
| Psri.DecryptEncrypt | gatt_profiles/ga_lib_csis_psri.c:230-288 | Decryption gives the key of the set back exactly if it uses the mask of the encryption, so always under the same link key |

## Left out

- Stack, controller, codec and driver calls, timers, tracing, RPC and UART: events and answers of the model.
- Notifications of ASE states and of control point responses, and the octets of the latter: only the statuses they
  carry are modelled.
- ControlPoint: the ASEs' fields not read by the code modelled here (attribute handles, data path direction), and the
  release of data paths on Disable and Release, which changes no ASE.
- AscsRuns.EveryRunIsGood: two cuts, both the outcome `Overrun`. An entry that is parsed beyond the end of its write
  ends the pass, and so does a fourth entry, whose status would be stored behind the array of three: the loop is bounded
  by the length of the write, not by its count.
- AscsServer.Server.CheckWriteReq: the same two cuts.
- AscsRuns: the type of a cleared ASE, which is zero, is not distinguished; it is read of no idle ASE. Writes on a
  connection that is not in use do not reach the server.
- CodecConfig.ParsersAgree: about lists of elements; on other octets the eight-bit remaining length of the ASCS parser
  wraps when an element is as long as what is left, and its type check reads one entry past the length table.
- Metadata.MetadataRoundTrip: upper-layer data whose first element is a context or a CCID list; what then comes back is
  said by `Metadata.MetadataParsesOn` and, for a streaming context, `Metadata.UpperLayerOverrides`. A metadata length
  above 255 does not fit its octet. Program info and vendor data are written but not parsed back: the parser rejects
  them, after the contexts are stored.
- Metadata: an empty sequence stands for an absent pointer, so that an empty program info is not distinguished from none.
- BaseRoundTrip.BuiltIsReceived: the same upper-layer data; for those `BaseRoundTrip.BuiltIsRead` says what comes back.
- BaseRoundTrip.BuiltIsRead: for at most 255 octets, which is what the builder can count; the highest octet of the 32-bit
  delay field, which the parser does not write, is taken as zero.
- Base.ParseBaseInfo: what a rejected parse leaves in a subgroup half read.
- GattOperations.EveryRun: completions that do not belong to the list, and lists of reads, where a refused read counts
  down without having counted up.
- GattDiscovery.KthSlotHoldsKth: handles reported by the stack are nonzero; UUIDs are compared by equality.
- GattDiscovery: service ranges, included services and the order of the discovery procedures.
- CccdStore: the handles of the attribute table are a parameter, assumed distinct; the file that defines them is not
  part of this model. Storing the words in NVRAM.
- PeriodicSync.EveryRun: a timeout that answers no command counts as a new request. `broadcast_sink_clear_data`, which resets the flag, has no end condition.
- VolumeControl: the volume flag, which starts persisted and stays so; the audio driver; the state update sent over RPC.
- BassValidator: parsing of the operations, whose pointer is not moved behind the metadata of a subgroup.
- Psri.ResolvesFirst: advertising data that are not a sequence of elements; `Psri.ResolvesPastTheEnd` is about some.
- Psri: the derivation of the link key.
- `fill_common_params`, which advances by an accumulated length when both contexts are set.
- BASS and BIG receive states, the CSIS lock, NVRAM, HAS, MCS, CCP, GMAP, MICS, advertising: thin or finite.
