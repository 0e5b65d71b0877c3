# multiACE: a Dafny model and its proofs

multiACE drives several filament changers ("ACE" units) on one printer. This project models the parts of it
whose correctness is more than one function deep, and proves what they promise:

- **G-code post-processor** (`Gcode`, `Paging`, `SwapPlanner`, `Matching`, `Aliases`, `Rewriter`, `Prelayer`).
  The swap planner is offline paging on four heads; it is proved minimal against every schedule (Belady's
  theorem, for any number of heads). Around it, spool matching, tool aliasing, the rewriter (run on a model
  machine with physical heads) and the pre-layer loader.
- **Wire protocols** (`Crc`, `ByteArrays`, `Framing`, `AceProtocolV1`, `AceProtocolV2`, `Damage`, `Protobuf`,
  `Commands`). Resynchronising stream parsers, two CRC routines that are one function, what line noise does
  to a stream, and the protobuf subset of the v2 commands. The module `LiveReader` is the driver's own copy
  of the v1 parser with its callback map.
- **Auto-dry** (`Recipes`, `AutodryFsm`, `AutodryRuns`, `AutodryLaws`, `AutodryDuty`, `AutodryHeat`,
  `AutodryExamples`, `AutodryStore`, `AutodryManager`, `Poller`). One tick of the state machine is a function; the
  theorems are about whole runs of ticks from a blank state, with restarts and fault resets at any point. The objects
  (debounce buffer, in-memory state, one machine per ACE, manager, poller) are classes whose methods are proved
  against that function.
- **Config merge** (`CfgText`, `Sorted`, `ConfigMerge`, `MergeTwice`). The overlay of a user's `[ace]` values on a new
  default file, down to the characters: stripping, the three patterns, lines and line breaks.
- **Chew detector** (`ChewDetector`). Learned per-head, per-band baselines and consecutive-window counters.

The usual shape is a specification function, a method written like the source and proved to compute it, and
lemmas about the function. For each operation some of the lemmas say what it computes without the function's own
pieces: in plain numbers and bytes, from the positions in a list, or from a whole history. `hide` statements only
keep proofs small.

## What the proofs found

Where the code does not do what its documentation or its neighbours suggest, the code is modelled as it is:

- `plan_swaps` says it evicts the first head whose tool does not appear again. It evicts the tool used furthest
  in the future, which is what makes it minimal. Its last pass over the heads never has anything to do.
- The rewriter keeps a single head per tool, and like the planner it does not see tool lines with arguments
  (`T5 F300`), which keep their number. For jobs without load and park lines of their own (`NoForeignLoads`) whose
  tools have different spots (`SpotsDiffer`; with equal spots a move may go unnoticed), every line of a resolved tool
  selects its spool **if and only if** the plan never moves a tool to a second head (`OneHome`, readable off the
  planner's output) and every line with arguments has the number of a head that holds its tool by the plan
  (`ArgsAtHome`). `MovingJob` violates the first and `ARGS_JOB` the second, and both are misrouted. From a tool's last
  assignment on, the lines that the planner reads are always right.
- The pre-layer pass leaves out a load that the layer makes itself, however late: the tool is on its head from the
  start exactly when it was there already or the layer does not load it (`PreloadsLoadTheMachine`,
  `LateLoadIsTooLate`). Its pattern for load lines knows no sign, so a second run repeats the loads of a negative
  ACE or slot number, and is the identity exactly when no small layer needs one (`WeaveTwiceIff`).
- The planner and the aliasing pass recognise tool lines by different patterns. As long as the pass sees every planner
  line of a tool that it renames, aliasing never adds a swap; `OddJob` shows that it can where it does not.
- A response whose translation raises (`rgba >> 24` on a field that is not a number, for one) ends the v2 parser's
  call: the messages before it are lost, the frames after it stay in the buffer (`ParseIsAllOrNothing`). So the
  messages are independent of the cutting into reads for streams on which the translator never raises
  (`ReadsIgnoreTheCutting`), and not for others (`RaisingLosesTheRead`).
- The v1 parser reads neither the checksum nor the end marker: whatever the trailer, a frame yields its message
  exactly when its payload decodes (`TrailerIsIgnored`). The v2 parser accepts nothing that is not correctly framed
  and checksummed.
- The driver's reader asks every decoded message for its id. JSON that is not an object has no ids to ask for: it
  raises, later frames of the read stay undelivered in the buffer, and the driver disconnects. Up to the first such
  message the deliveries are the same for every cutting of the stream, and so is that it comes to one.
- A drying profile with duration zero switches off the per-cycle cap, because the tick takes zero for "not set":
  the duty bound then holds only with the run cap in its place, and `ZERO_RUN` exceeds the smaller one. Only a user
  profile can have such a duration, and the one inputs fetcher there is passes none (server.py:669): as shipped, the
  smaller bound holds (`ShippedDutyIsBounded`).
- The daily duty counts finished cycles only. A cycle ended by a print or by a fault is never recorded, and neither is
  a manual one that the machine watches (`TickCycle`, `DutyIsRecorded`), so their heating does not count towards the
  cap: in `PrintRun(4)`, with the shipped settings, four cycles interrupted by prints heat for 1400 minutes under a cap
  of 1080, in `MANUAL_RUN` a manual cycle heats for 2000, and the duty list stays empty. Recorded minutes are heating
  minutes, the cycle in progress included, exactly when the unrecorded cycles of the window ran none
  (`HeatIsRecordedIff`). With no unrecorded minutes but those of a cycle of the machine's own still in progress, the
  duty bound is a bound on all heating (`HeatIsBounded`). Among several ACEs no manual cycle is watched at all
  (`NothingObserved`).
- A restart outside watching loses the requested duration of a cycle in progress, and its temperature and starting
  humidity, which the record of the last run then shows as zero. Apart from that record no snapshot changes, until a
  cycle would end by a duration that was forgotten; there, and only there, the runs part
  (`RestartIsTransparentIff`, `PartsAtFirstForgotten`). The start of a manual cycle that is being watched is lost as
  well: its record then has a run that began with the epoch (`ObservedRecordIff`).
- A reading that is missing is passed on as the number zero, and the drying state looks at the number only. So a cycle
  in progress ends as a success without any usable reading, for every target of at least zero: when the ACE's own
  sensor has failed or sends no number, when the shared one has no number, and whenever the status payload is stale, be
  it during a print. A number out of range, or of a failed shared sensor, is compared as if it were good.
  `TargetWithoutReadingIff` has all the cases.
- The `debounce_required` parameter of `tick_fsm` is unused; the buffer's own threshold decides.
- A visit of the poller that needs no switch does not clear an unreachable mark: the visited machine is held back
  exactly when its ACE was active already and had failed at least twice (`HeldBackIff`).

## Model

| member | source | states |
|---|---|---|
| Crc.Crc16Kermit | multiace/klipper/extras/ace_protocol_v2.py:45-51 | the loop computes the Kermit checksum of the whole string |
| Crc.CalcCrc | multiace/klipper/extras/ace_protocol_v1.py:17-24 | the unmasked nibble version equals the bitwise one on every byte string, hence fits 16 bits |
| Crc.NibbleIsKermit | multiace/klipper/extras/ace_protocol_v1.py:20-23 | one nibble step from any 16-bit state is one Kermit step (appendix C of RFC 1662) |
| Crc.KermitStepInjective | multiace/klipper/extras/ace_protocol_v2.py:45-51 | two steps with the same result start in the same state exactly when they take the same byte |
| Crc.TwoStepsInjective | multiace/klipper/extras/ace_protocol_v2.py:45-51 | two steps are injective in both bytes together |
| Crc.BurstDetected | multiace/klipper/extras/ace_protocol_v2.py:45-51 | any change within two adjacent bytes changes the checksum of the whole |
| Crc.CheckValue | multiace/klipper/extras/ace_protocol_v2.py:45-51 | the digits from 1 to 9 have the check value 0x6F91 that catalogues give for this CRC |
| Framing.SplitLaw | multiace/klipper/extras/ace_protocol_v2.py:258-299 | frames(a + b) = frames(a) + frames(rest(a) + b) for every split of every stream |
| Framing.ChunkingIsInvisible | multiace/klipper/extras/ace_protocol_v2.py:258-299 | for every list of chunks the frames are those of the unbroken stream |
| Framing.RestIsSettled | multiace/klipper/extras/ace_protocol_v2.py:258-299 | parsing the leftover again yields nothing and changes nothing |
| Framing.RestIsBounded | multiace/klipper/extras/ace_protocol_v2.py:258-299 | the leftover is always shorter than one maximal frame |
| AceProtocolV2.EncodeRequest | multiace/klipper/extras/ace_protocol_v2.py:246-256 | refuses exactly the payloads over the limit; otherwise writes the wire form of a valid request frame |
| AceProtocolV2.KnownRequest | multiace/klipper/extras/ace_protocol_v2.py:246-256 | a request byte for byte: preamble, flag, numbers low byte first, checksum, end marker |
| AceProtocolV2.CheckPacket | multiace/klipper/extras/ace_protocol_v2.py:277-298 | end marker, checksum and response flag, judged in this order, decide what becomes of a complete packet; `Damage.PacketLaw` says it in bytes |
| AceProtocolV2.DecodeFrames | multiace/klipper/extras/ace_protocol_v2.py:258-299 | the in-place loop, its translator included: the messages it returns or that it raises, and the bytes it leaves, are those of the specification |
| AceProtocolV2.ParseIsAllOrNothing | multiace/klipper/extras/ace_protocol_v2.py:258-299 | a call returns the translation of every frame of its buffer and the parser's rest if none raises; otherwise nothing, and what it leaves has exactly the frames after the first that raises |
| AceProtocolV2.ReadsIgnoreTheCutting | multiace/klipper/extras/ace_protocol_v2.py:258-299 | if no response of a stream raises, its messages are the same for every cutting into reads |
| Damage.MatchIsZeroResidue | multiace/klipper/extras/ace_protocol_v2.py:283-288 | two checksum bytes match a string if and only if the checksum over both together is zero |
| Damage.ChecksumTells | multiace/klipper/extras/ace_protocol_v2.py:283-288 | when up to two adjacent bytes are overwritten in a frame, in its checksum or across the border, the checksum matches exactly when nothing changed |
| Damage.DamageIsIsolated | multiace/klipper/extras/ace_protocol_v2.py:258-299 | junk and frames, any of them hit by a burst of up to two adjacent bytes in flags, sequence number, command, payload or checksum: exactly the undamaged responses in order, requests swallowed, nothing left over |
| Damage.DamageIsIsolatedInChunks | multiace/klipper/extras/ace_protocol_v2.py:258-299 | the same for every cutting of the noisy stream into reads |
| Damage.RaisingLosesTheRead | multiace/klipper/extras/ace_protocol_v2.py:258-299 | for any two responses of which the translator raises on the second: read together, both are lost; read apart, the first comes through |
| Damage.PacketLaw | multiace/klipper/extras/ace_protocol_v2.py:258-299 | all that becomes of a buffer with a preamble in front: over 100 announced bytes, or no end marker where they end, skips the preamble only; an incomplete packet waits; a complete one is consumed whole, and yields its response exactly if the checksum matches and the flag is set |
| Damage.CutFrameHidesNothing | multiace/klipper/extras/ace_protocol_v2.py:275-282 | a frame cut short, that announces too much or is followed by no end marker where it should be, never hides the intact frame behind it |
| Damage.NothingInvented | multiace/klipper/extras/ace_protocol_v2.py:258-299 | in any byte string, every response that comes out lay there correctly framed and checksummed |
| AceProtocolV1.EncodeRequest | multiace/klipper/extras/ace_protocol_v1.py:45-63 | size check on the first try; retries while the checksum collides, at most ten times, and gives up only for a stated reason; a retried payload that two length bytes cannot hold is an error |
| AceProtocolV1.CollisionIsPreamble | multiace/klipper/extras/ace_protocol_v1.py:51-57 | the checksums that are retried are exactly those whose bytes read as a preamble |
| AceProtocolV1.KnownFrame | multiace/klipper/extras/ace_protocol_v1.py:45-63 | a frame byte for byte |
| AceProtocolV1.DecodeFrames | multiace/klipper/extras/ace_protocol_v1.py:65-94 | the in-place loop yields the messages of the buffer and leaves the rest in it |
| AceProtocolV1.PacketLaw | multiace/klipper/extras/ace_protocol_v1.py:65-94 | all that becomes of a buffer with a preamble in front: over 2048 announced bytes skip the preamble only, an incomplete frame waits, a complete one is swallowed whole, message or not |
| AceProtocolV1.LongFrameHidesNothing | multiace/klipper/extras/ace_protocol_v1.py:79-82 | a frame that announces too much never hides the one behind it |
| AceProtocolV1.TrailerIsIgnored | multiace/klipper/extras/ace_protocol_v1.py:65-94 | for any three trailer bytes and whatever follows, a frame yields its message if and only if the payload decodes |
| AceProtocolV1.RoundTrip | multiace/klipper/extras/ace_protocol_v1.py:45-94 | a framed payload is decoded first and whole, whatever follows it |
| AceProtocolV1.CheckedCrc | multiace/klipper/extras/ace_protocol_v1.py:49-62 | packing the unmasked checksum as two bytes never fails |
| LiveReader.Reader.Deliver | multiace/klipper/extras/ace.py:1437-1440 | a message takes its id's callback off the map, or nobody gets it; one that cannot be asked for an id raises and changes nothing |
| LiveReader.Reader.ProcessData | multiace/klipper/extras/ace.py:1394-1440 | delivers the v1 parser's messages, in order, up to the first that raises; keeps the parser's rest, or then exactly the later messages |
| LiveReader.DispatchConcat | multiace/klipper/extras/ace.py:1437-1440 | dispatching two lists of messages is dispatching them one after the other, the second only if the first does not raise |
| LiveReader.StopsAtFirst | multiace/klipper/extras/ace.py:1437-1440 | a list of messages raises if and only if one of them does, and is delivered up to the first such |
| LiveReader.EachIsAnsweredOnce | multiace/klipper/extras/ace.py:1437-1440 | each callback is called at most once, with the first message that has its id, in the order of the messages, and waits on exactly if there was none |
| LiveReader.DeliveriesIgnoreReads | multiace/klipper/extras/ace.py:1394-1440 | which callbacks fire, with what, in which order and whether it ends in an exception does not depend on how the port cuts the stream |
| Protobuf.PbVarint | multiace/klipper/extras/ace_protocol_v2.py:53-59 | the loop writes the base-128 form, one byte for a negative value |
| Protobuf.PbDecodeVarint | multiace/klipper/extras/ace_protocol_v2.py:67-76 | the loop reads the value and the end position of the varint at a position, cut short or not |
| Protobuf.VarintRoundTrip | multiace/klipper/extras/ace_protocol_v2.py:53-76 | decoding inverts encoding before any suffix, exactly for the non-negative values |
| Protobuf.VarintLength | multiace/klipper/extras/ace_protocol_v2.py:53-59 | a value below the n-th power of 128 takes at most n bytes |
| Protobuf.PbDecodeValue | multiace/klipper/extras/ace_protocol_v2.py:83-101 | the wire-type branches, with clamped lengths and the cases that stop the loop |
| Protobuf.PbDecode | multiace/klipper/extras/ace_protocol_v2.py:78-102 | under each number, the values of that field in the order they stand |
| Protobuf.FieldRoundTrip | multiace/klipper/extras/ace_protocol_v2.py:61-102 | a written number field is read back with its number and value, before any tail |
| Protobuf.MessageRoundTrip | multiace/klipper/extras/ace_protocol_v2.py:61-102 | any concatenation of number fields is read back in order |
| Protobuf.AnyMessageRoundTrip | multiace/klipper/extras/ace_protocol_v2.py:78-102 | any message, of numbers, texts and fixed-size values, is read back field by field |
| Protobuf.CutShort | multiace/klipper/extras/ace_protocol_v2.py:85-101 | a text cut short keeps what is there; a fixed-size value cut short and any other wire type end the message |
| Commands.PayloadFits | multiace/klipper/extras/ace_protocol_v2.py:249-252 | with parameters below 2^32 no request but a raw one can hit the payload limit |
| Commands.MotionIsRecoverable | multiace/klipper/extras/ace_protocol_v2.py:314-333 | slot, speed, length and mode of feed, unwind and assist are what a decoder reads |
| Commands.MotionOnTheWire | multiace/klipper/extras/ace_protocol_v2.py:246-333 | the same from the bytes on the wire |
| Commands.RequestIsUnderstood | multiace/klipper/extras/ace_protocol_v2.py:307-405 | from the payload of every request that is not raw a device reads the numbers of the command table, flags included, under the table's command |
| Matching.MatchIsCoherent | multiace_web/tools/multiace_postprocess.py:390-431 | tools of one material and colour are bound alike, and an unmatched tool to nothing |
| Matching.ResolvedIff | multiace_web/tools/multiace_postprocess.py:397-432 | a tool is matched exactly when one spool alone is listed for its material and colour, and to that one's slot; ambiguous from two on; left to the fuzzy search with none |
| Matching.BindingsAre | multiace_web/tools/multiace_postprocess.py:373-390 | a spool is listed with the ACE and the slot it is in |
| Matching.ExactMatchSeparates | multiace_web/tools/multiace_postprocess.py:396-403 | when each slot is listed once, tools on one slot have one material and colour |
| Paging.StartNotAhead | multiace_web/tools/multiace_postprocess.py:473-480 | no choice of initial tools is ahead of the first ones in order of use |
| Paging.MissLine | multiace_web/tools/multiace_postprocess.py:503-539 | the exchange step: a miss keeps the planner not behind any schedule |
| Paging.EvictedIsFurthest | multiace_web/tools/multiace_postprocess.py:503-518 | the evicted tool is the one needed furthest in the future |
| Paging.PlannerNeverBehind | multiace_web/tools/multiace_postprocess.py:442-545 | before every line, every schedule has paid at least what the planner has |
| Paging.PlannerIsOptimal | multiace_web/tools/multiace_postprocess.py:442-545 | no schedule, from no start, makes fewer swaps |
| Paging.PlannerMeetsItsCost | multiace_web/tools/multiace_postprocess.py:442-545 | the planner's own run is a schedule at exactly its count |
| SwapPlanner.ScanTools | multiace_web/tools/multiace_postprocess.py:462-471 | order of first use of the resolved tools, and all uses of every tool |
| SwapPlanner.NextAfter | multiace_web/tools/multiace_postprocess.py:508-509 | the least later use, or minus one |
| SwapPlanner.ChooseVictim | multiace_web/tools/multiace_postprocess.py:503-518 | the minimum of the eviction key is the paging model's victim |
| SwapPlanner.PreloadHeads | multiace_web/tools/multiace_postprocess.py:473-480 | the two dictionaries mirror each other and hold the first four tools |
| SwapPlanner.PlanSwaps | multiace_web/tools/multiace_postprocess.py:442-545 | swaps and physical heads written into the resolutions are those of the specification plan |
| SwapPlanner.PlanIsMinimal | multiace_web/tools/multiace_postprocess.py:442-545 | the number of swaps is minimal over all schedules that have each resolved tool on a head at its lines |
| SwapPlanner.PlanIsASchedule | multiace_web/tools/multiace_postprocess.py:442-545 | the plan is itself such a schedule, with exactly that many swaps |
| SwapPlanner.SwapFreeJobs | multiace_web/tools/multiace_postprocess.py:442-545 | no swap at all if and only if the job asks for no more tools than heads |
| SwapPlanner.FinalPassIsIdle | multiace_web/tools/multiace_postprocess.py:541-543 | the last pass finds no tool without a head |
| Rewriter.SwapTellsTheTruth | multiace_web/tools/multiace_postprocess.py:517-532 | a recorded swap has the layer its line lies in, what its head had loaded before, zeros for an empty head, and what it has loaded after |
| Aliases.OptimizeAliases | multiace_web/tools/multiace_postprocess.py:554-611 | the loop applies one static map, first-seen tool of each material and colour, and reports every change |
| Aliases.AliasIsFirst | multiace_web/tools/multiace_postprocess.py:577-610 | the alias is the first tool of the same material and colour shown at column 0, or the tool itself |
| Aliases.AliasedLine | multiace_web/tools/multiace_postprocess.py:590-600 | only the number of a column-0 tool line changes, its arguments stay |
| Aliases.DecisionsAre | multiace_web/tools/multiace_postprocess.py:592-600 | exactly the changed lines are reported, in order, with both numbers and the layer |
| Aliases.AliasKeepsTheSlot | multiace_web/tools/multiace_postprocess.py:577-610 | an alias has the original's material, colour and slot |
| Aliases.AliasedRequests | multiace_web/tools/multiace_postprocess.py:554-611 | the planner sees the same requests, each through the map |
| Aliases.AliasingNeverAddsSwaps | multiace_web/tools/multiace_postprocess.py:554-611 | if every planner line of a renamed tool stands at column 0, aliasing before planning never adds a swap |
| Aliases.DisagreementCanAddASwap | multiace_web/tools/multiace_postprocess.py:548-551 | a job in which one does not, and a swap is added |
| Aliases.NoSlotOnTwoHeads | multiace_web/tools/multiace_postprocess.py:473-539 | after exact matching and aliasing, with every comparable tool line at column 0, no two heads ever hold the same slot |
| Rewriter.RewriteGcode | multiace_web/tools/multiace_postprocess.py:735-794 | the loop emits the specified output line by line |
| Rewriter.EveryLineSurvives | multiace_web/tools/multiace_postprocess.py:768-794 | every input line is in the output, once and in order, unchanged unless the planner reads it; whatever else is there is a park, a load or a comment |
| Rewriter.OrdinaryLinesSurvive | multiace_web/tools/multiace_postprocess.py:768-794 | the lines that select no tool, load and park nothing are the same in input and output |
| Rewriter.LineInPlace | multiace_web/tools/multiace_postprocess.py:768-792 | before a line stand the header comments, behind the slicer's header line, then the park and the load of the line's swap, and nothing else |
| Rewriter.NeverLoadsOntoASpool | multiace_web/tools/multiace_postprocess.py:779-784 | a machine running the output never loads a head that still holds something |
| Rewriter.MachineFollowsPlan | multiace_web/tools/multiace_postprocess.py:773-794 | a machine running the output holds on every head what the planner believes |
| Rewriter.RewriteIsFaithful | multiace_web/tools/multiace_postprocess.py:735-794 | when no tool moves and every tool line with arguments names a head with its tool, every Tn of a resolved tool, with arguments or without, selects a head then holding that tool's spool |
| Rewriter.RewriteIsFaithfulIff | multiace_web/tools/multiace_postprocess.py:735-794 | and, with different spots for different tools, only then |
| Rewriter.RightAfterLastAssignment | multiace_web/tools/multiace_postprocess.py:498-540 | from a tool's last assignment on, its lines without arguments are right whatever moves |
| Rewriter.RightWithArgs | multiace_web/tools/multiace_postprocess.py:786-794 | a line with arguments is right if and only if the head of its number has its tool by the plan |
| Rewriter.AMovedToolIsMisrouted | multiace_web/tools/multiace_postprocess.py:735-794 | a concrete job whose moved tool selects another spool |
| Rewriter.ArgumentsAreMisrouted | multiace_web/tools/multiace_postprocess.py:548-549 | a one-line job in which no tool moves and the line with arguments selects no spool |
| Rewriter.PlannedResolutions | multiace_web/tools/multiace_postprocess.py:498-543 | what the planner leaves in the resolutions is what the rewriter's theorems ask for |
| Prelayer.PrelayerReload | multiace_web/tools/multiace_postprocess.py:614-706 | collecting inserts and splicing them in reverse gives the forward weave and its decisions |
| Prelayer.SpliceIsWeave | multiace_web/tools/multiace_postprocess.py:703-704 | reverse splicing of all later inserts is the weave of the remaining lines |
| Prelayer.UnweaveWeave | multiace_web/tools/multiace_postprocess.py:614-706 | removing the inserted lines gives the original |
| Prelayer.LayersOfWeave | multiace_web/tools/multiace_postprocess.py:650-706 | the output has the input's layers, each with its missing loads in front |
| Prelayer.LayerToolsAre | multiace_web/tools/multiace_postprocess.py:652-660 | a layer's list is each resolved tool its column-0 lines name, once |
| Prelayer.LayerToolsInOrder | multiace_web/tools/multiace_postprocess.py:652-660 | the list is in the order of first use |
| Prelayer.PreloadsAre | multiace_web/tools/multiace_postprocess.py:668-696 | nothing for more than four tools; else the load of the h-th tool on head h, for every h the layer does not load itself, in head order, all heads below 4 |
| Prelayer.DecisionsAre | multiace_web/tools/multiace_postprocess.py:646-701 | the decisions report each layer's number, tools and preloads, and whether it has more than four |
| Prelayer.SmallLayersAreLoaded | multiace_web/tools/multiace_postprocess.py:678-701 | in a layer of at most four tools each has its load line, on its own head |
| Prelayer.PreloadsLoadTheMachine | multiace_web/tools/multiace_postprocess.py:674-696 | running the preloads puts each tool of the layer on its head, except those the layer loads itself, whose heads stay as they were |
| Prelayer.LateLoadIsTooLate | multiace_web/tools/multiace_postprocess.py:674-687 | a layer that loads its tool after using it gets no preload, and the tool finds an empty head |
| Prelayer.WeaveTwiceIff | multiace_web/tools/multiace_postprocess.py:551-691 | a second run inserts nothing if and only if no small layer needs a load line with a negative number |
| Recipes.CycleParamsFor | multiace_web/src/multiace_web/autodryer.py:224-251 | the cycle of the first user profile with the filament's name; if no user profile has it, of the first default with it; else 50 degrees for 360 minutes |
| Recipes.NameIff | multiace_web/src/multiace_web/autodryer.py:236-247 | names are the same exactly when the stripped texts are, letter case apart |
| Recipes.NameOfPadded | multiace_web/src/multiace_web/autodryer.py:236-247 | blanks around a name do not matter |
| Recipes.ShippedCycles | multiace_web/src/multiace_web/autodryer.py:210-221 | degrees and minutes of every shipped name |
| Recipes.ReconcileLoadedSlots | multiace_web/src/multiace_web/autodryer.py:254-281 | the loop over the loaded types computes the reconciled recipe |
| Recipes.ReconcileProtects | multiace_web/src/multiace_web/autodryer.py:254-281 | every loaded filament tolerates the temperature and duration, the temperature is one of theirs, and so is the duration unless it is the cap |
| Recipes.ReconcileIsMonotone | multiace_web/src/multiace_web/autodryer.py:254-281 | loading more never makes the recipe harsher, and only the set of loaded types matters |
| Recipes.MixedIffDifferent | multiace_web/src/multiace_web/autodryer.py:273-280 | the warning is on exactly when two loaded types differ |
| Recipes.ShippedRecipesAreTimed | multiace_web/src/multiace_web/autodryer.py:210-281 | without user profiles every recipe has a duration from 360 minutes to the per-cycle cap |
| AutodryRuns.FaultIffFaulted | multiace_web/src/multiace_web/autodryer.py:465-467 | in every run a fault record is there exactly in the faulted state |
| AutodryRuns.FaultIsSticky | multiace_web/src/multiace_web/autodryer.py:465-467 | no ticks and no restarts lead out of it without a reset, and the snapshot stays as it is |
| AutodryRuns.ThresholdIff | multiace_web/src/multiace_web/autodryer.py:284-313 | the threshold is reached if and only if the last required observations were all above |
| AutodryRuns.DebounceCounts | multiace_web/src/multiace_web/autodryer.py:284-313 | the count is zero outside watching, below the threshold between ticks, and equals the above-wake evaluations since the last reset |
| AutodryRuns.FiresIff | multiace_web/src/multiace_web/autodryer.py:550-596 | a cycle is announced if and only if the evaluation is above the wake line and the required-th since the watch began |
| AutodryRuns.TriggerHistory | multiace_web/src/multiace_web/autodryer.py:489-596 | the required evaluations lie in one watching stay without a below-wake evaluation, a printing tick or a restart in between |
| AutodryRuns.TriggerSpacing | multiace_web/src/multiace_web/autodryer.py:544-731 | two announcements without a fault reset between them are the cooldown and required + 1 ticks apart, in both modes, across restarts |
| AutodryRuns.SkipSpacing | multiace_web/src/multiace_web/autodryer.py:417-434 | in every run two skip events of one kind without a restart between them are at least the rate limit apart |
| AutodryLaws.AnnouncedRecipe | multiace_web/src/multiace_web/autodryer.py:555-596 | when a tick fires, announced temperature and duration are at most those of every named filament of the ACE, the temperature is one of theirs, the duration too or the cap; without a named one all is said of the default type; what is announced is kept in memory |
| AutodryLaws.WakesIsAbove | multiace_web/src/multiace_web/autodryer.py:497-553 | the guards of an evaluation above the wake line, in plain inputs: mode, reading, active ACE, something loaded or to be kept ready, no print, no change, cap, cooldown, and humidity above target plus hysteresis |
| AutodryLaws.ArmedIff | multiace_web/src/multiace_web/autodryer.py:470-487 | armed means the mode, a reading from 0 to 100, the active ACE and a filament to suit |
| AutodryLaws.RecentOneMore | multiace_web/src/multiace_web/autodryer.py:529-534 | a run counts towards the daily cap for 24 hours from its start |
| AutodryLaws.DryingTick | multiace_web/src/multiace_web/autodryer.py:599-704 | a drying tick in plain numbers: when it goes on, faults and with which code, or cools down and until when, and what it announces |
| AutodryLaws.DryingRecord | multiace_web/src/multiace_web/autodryer.py:617-700 | what the end of a drying cycle records, and on which lists |
| AutodryLaws.OtherTicks | multiace_web/src/multiace_web/autodryer.py:470-515 | the other states: armed or not, the dryer on or off, the cooldown over or not, and the record of a manual cycle |
| AutodryLaws.FaultTexts | multiace_web/src/multiace_web/autodryer.py:648-676 | the two fault messages, the numbers in them being the decimal texts of theirs |
| AutodryLaws.TenthsAre | multiace_web/src/multiace_web/autodryer.py:667-667 | humidities in the message are given to the nearest tenth, ties to the even one |
| AutodryLaws.RecordTellsTheCycle | multiace_web/src/multiace_web/autodryer.py:555-704 | over whole runs the record of a cycle has the times and humidities of the ticks that announced and ended it, the announced recipe and the minutes between, and is a success, on the duty list, exactly when no fault ended it |
| AutodryLaws.RestAfterCycle | multiace_web/src/multiace_web/autodryer.py:599-731 | over every run nothing is announced within the cooldown after the end of any cycle, manual ones included, resets and restarts notwithstanding |
| AutodryLaws.SkipIff | multiace_web/src/multiace_web/autodryer.py:417-434 | over every run a skip is announced exactly when the tick is skipped for that reason and none of the kind was in the last half hour since the last restart |
| AutodryExamples.SpacingIsTight | multiace_web/src/multiace_web/autodryer.py:544-731 | a run in which both distances are met exactly |
| AutodryDuty.StartSurvives | multiace_web/src/multiace_web/autodryer.py:967-970 | throughout drying the start a tick works with is the persisted since_ts, restarts or not |
| AutodryDuty.RestartIsTransparent | multiace_web/src/multiace_web/autodryer.py:951-970 | restarts outside watching change no later snapshot but the last-run record and no elapsed minutes, as long as no cycle is ended by a duration that a restart forgot |
| AutodryDuty.RestartIsTransparentIff | multiace_web/src/multiace_web/autodryer.py:951-970 | up to any tick: the snapshots agree, last-run records apart, if and only if no forgotten duration ended a cycle before it |
| AutodryDuty.PartsAtFirstForgotten | multiace_web/src/multiace_web/autodryer.py:654-704 | at the first forgotten duration the uninterrupted run ends its cycle and the restarted one dries on; before it all snapshots agree |
| AutodryDuty.RestartForgetsDuration | multiace_web/src/multiace_web/autodryer.py:654-704 | at that point the restarted machine dries on |
| AutodryDuty.DurationKept | multiace_web/src/multiace_web/autodryer.py:555-558 | without restarts in drying and zero durations, a cycle in progress always has a duration of at most the cap |
| AutodryDuty.WindowBound | multiace_web/src/multiace_web/autodryer.py:529-541 | if every run was short and started under the cap, any 24-hour window is below cap plus one run |
| AutodryDuty.DutyIsBounded | multiace_web/src/multiace_web/autodryer.py:529-704 | over every run of ticks at most G apart, the minutes recorded for runs started in any 24 hours stay below daily cap + cycle limit + G rounded up |
| AutodryDuty.ShippedDutyIsBounded | multiace_web/src/multiace_web/server.py:626-671 | with the shipped fetcher, which passes no user profiles, and no restart while drying, the bound holds with the per-cycle cap of 480 minutes |
| AutodryExamples.ZeroDurationBreaksTheCap | multiace_web/src/multiace_web/autodryer.py:654-656 | with a user profile of duration zero, a run that exceeds the bound built on the per-cycle cap |
| AutodryHeat.TickCycle | multiace_web/src/multiace_web/autodryer.py:599-731 | a tick that ends a cycle records it if and only if it is the machine's own and ended neither for a print nor with a fault, and no other tick touches the duty list |
| AutodryHeat.DutyIsRecorded | multiace_web/src/multiace_web/autodryer.py:599-731 | over every run the duty list is exactly the recorded ones among all cycles, manual ones included, in order |
| AutodryHeat.SinceIsTheTick | multiace_web/src/multiace_web/autodryer.py:591-594 | in every run, restarts or not, the start that a drying tick works with is the time of the tick that began the cycle |
| AutodryHeat.ObservedRecordIff | multiace_web/src/multiace_web/autodryer.py:709-724 | the record of a manual cycle has its start if and only if no restart came since; otherwise zero, and the minutes since the epoch |
| AutodryHeat.HeatIsRecordedIff | multiace_web/src/multiace_web/autodryer.py:529-731 | recorded minutes never exceed the minutes of all heating, manual cycles and the one in progress included, and equal them in a window if and only if its unrecorded cycles ran none |
| AutodryHeat.HeatIsBounded | multiace_web/src/multiace_web/autodryer.py:529-731 | without unrecorded minutes but those of an own cycle in progress, the bound on recorded minutes is one on all heating |
| AutodryExamples.InterruptedCyclesEscapeTheCap | multiace_web/src/multiace_web/autodryer.py:599-611 | with the shipped settings, four cycles interrupted by prints heat for more than the daily cap and leave the duty list empty |
| AutodryExamples.ManualHeatEscapesTheCap | multiace_web/src/multiace_web/autodryer.py:505-513 | a manual cycle of 2000 minutes is watched, kept as the last run, and leaves the duty list empty |
| AutodryHeat.NothingObserved | multiace_web/src/multiace_web/autodryer.py:919-935 | over every run whose inputs say that nothing else dries, as those of one machine among several do, no manual cycle is watched |
| AutodryStore.StoreRoundTrip | multiace_web/src/multiace_web/autodryer.py:1245-1327 | reading back what was written restores every machine, for fewer, equal or more devices |
| AutodryStore.SnapshotRoundTrip | multiace_web/src/multiace_web/autodryer.py:1311-1327 | every snapshot, with fault and its message, last run and duty list, survives |
| AutodryStore.MachinesInOrder | multiace_web/src/multiace_web/autodryer.py:1294-1308 | whatever a file says, machine i is that of ACE i |
| AutodryStore.NewMachine | multiace_web/src/multiace_web/autodryer.py:1168-1300 | an ACE the file does not know starts switched off, with target 15, hysteresis 5, idle, and without any history |
| AutodryManager.SumRecent | multiace_web/src/multiace_web/autodryer.py:529-534 | the minutes of the runs started in the last 24 hours |
| AutodryManager.TickFsm | multiace_web/src/multiace_web/autodryer.py:437-733 | the statements, on the mutable in-memory objects, do what the tick function says, events included |
| AutodryManager.StepIs | multiace_web/src/multiace_web/autodryer.py:919-976 | a machine ticks in active mode with its own ACE as the active one, no change and no drying known of, its own sensor first, and the rest as fetched |
| AutodryManager.TargetWithoutReadingIff | multiace_web/src/multiace_web/autodryer.py:599-642 | for every drying tick: it is recorded as target reached without a usable reading at or below the target if and only if no print is known of and it is shown a zero for a missing reading, with a target of at least zero, or an unusable number not above the target |
| AutodryManager.TargetIsASuccess | multiace_web/src/multiace_web/autodryer.py:615-642 | reaching the target leaves a success, a duty record and no new fault |
| AutodryManager.DeadSensorEndsTheRun | multiace_web/src/multiace_web/autodryer.py:930-949 | one case: a failed sensor of the ACE's own ends a cycle in progress as a success |
| AutodryManager.StalePayloadEndsTheRun | multiace_web/src/multiace_web/server.py:645-671 | another case: a stale payload, which is read as standby and zero humidity |
| AutodryManager.PerAce.TickOne | multiace_web/src/multiace_web/autodryer.py:878-1000 | a locked, unreachable or disabled machine keeps everything; any other makes one step of a run on its own inputs |
| AutodryManager.AutodryManager.TickOneAce | multiace_web/src/multiace_web/autodryer.py:878-1015 | a tick of one ACE changes nothing of another, and an unknown ACE is refused |
| AutodryManager.AutodryManager.ResetFault | multiace_web/src/multiace_web/autodryer.py:1232-1243 | clears the record, leaves faulted for idle, and touches nothing else |
| AutodryManager.Restart | multiace_web/src/multiace_web/autodryer.py:1245-1308 | a manager started from the written file has every setting and snapshot and a fresh in-memory state |
| Poller.VisitsAreCyclic | multiace_web/src/multiace_web/poller.py:186-252 | whatever prints, failures and reports come between, each visit is to the next ACE in the round |
| Poller.RoundIsFair | multiace_web/src/multiace_web/poller.py:186-252 | any n consecutive visits see each of the n ACEs exactly once |
| Poller.IdleRoundIsFair | multiace_web/src/multiace_web/poller.py:199-252 | with the gate on and switches succeeding, n consecutive idle ticks from any history visit each ACE exactly once |
| Poller.FailuresCount | multiace_web/src/multiace_web/poller.py:226-248 | a counter holds the failed attempts since the last switch to that ACE that went through |
| Poller.FirstVisit | multiace_web/src/multiace_web/poller.py:211-222 | the first round starts behind the reported ACE |
| Poller.SwitchNeeded | multiace_web/src/multiace_web/poller.py:213-224 | a switch is needed exactly when another ACE than the one to visit is reported |
| Poller.HeldBackIff | multiace_web/src/multiace_web/poller.py:219-252 | a visited machine is held back if and only if its ACE was active already and has failed at least twice since a switch to it went through |
| Poller.FailingIsRetried | multiace_web/src/multiace_web/poller.py:236-248 | while switches to a target fail, whatever other ACE is reported and whatever prints come between, it is retried, counted, and nobody is visited |
| Poller.MultiAcePoller.SwitchTo | multiace_web/src/multiace_web/poller.py:224-248 | keeps the invariant that an ACE is unreachable if and only if it has failed at least twice in a row |
| Poller.MultiAcePoller.TickPrinting | multiace_web/src/multiace_web/poller.py:190-197 | all machines but the active one are locked and unchanged, the active one steps or is held back |
| Poller.MultiAcePoller.TickIdle | multiace_web/src/multiace_web/poller.py:199-252 | one turn of the round robin; only the visited machine may change, and all are unlocked |
| Poller.MultiAcePoller.Tick | multiace_web/src/multiace_web/poller.py:182-188 | printing or idle, one turn of the specification |
| CfgText.KeyLineEffect | multiace/tools/merge_ace_cfg.py:37-38 | a written key line parses back to its key and value |
| CfgText.HeaderLineEffect | multiace/tools/merge_ace_cfg.py:36-44 | a written section header parses back to its section |
| CfgText.BindIff | multiace/tools/merge_ace_cfg.py:37-70 | a line binds a key exactly when it is not indented and, stripped, is a key, blanks, a colon and the value |
| CfgText.MatchCommentedIff | multiace/tools/merge_ace_cfg.py:35-35 | a commented key is a hash, blanks, and such a text |
| CfgText.SectionNameIff | multiace/tools/merge_ace_cfg.py:38-44 | a header names a section exactly when only blanks are around the name |
| CfgText.AceNameIff | multiace/tools/merge_ace_cfg.py:33-33 | the names are `ace`, and `ace` with blanks and digits |
| CfgText.LinesOfCons | multiace/tools/merge_ace_cfg.py:54-55 | iterating over a text gives its first line and then the lines of the rest |
| Sorted.Sort | multiace/tools/merge_ace_cfg.py:117-128 | the one ascending listing of a set of names |
| ConfigMerge.ParseUserValues | multiace/tools/merge_ace_cfg.py:47-72 | the loop computes the file's values, all of which can be written back |
| ConfigMerge.StepLaw | multiace/tools/merge_ace_cfg.py:84-115 | one line of the pass: what default and merged file then say of any key |
| ConfigMerge.PassLaw | multiace/tools/merge_ace_cfg.py:84-115 | after the pass, written user keys have the user's value and all others what they had |
| ConfigMerge.AppendLaw | multiace/tools/merge_ace_cfg.py:117-134 | the appended sections add exactly the user's keys of sections without a header |
| ConfigMerge.LinesOfShaped | multiace/tools/merge_ace_cfg.py:121-124 | the written elements read back as lines, an unfinished last line fused with the break put after it |
| ConfigMerge.Merge | multiace/tools/merge_ace_cfg.py:75-145 | the method writes the specified file and reports exactly the orphans, each once, in ascending order |
| ConfigMerge.MergeLaw | multiace/tools/merge_ace_cfg.py:47-145 | re-parsing the merged file: the user's value for every user key but the orphans, the default's for every other key |
| ConfigMerge.RestIsVerbatim | multiace/tools/merge_ace_cfg.py:84-115 | a default line changes only in a user section, at column 0, where it names a user key, and only to that key's line |
| ConfigMerge.DefaultLine | multiace/tools/merge_ace_cfg.py:84-122 | what becomes of every default line: replaced only at column 0 of a user section, when it sets a user key to another value or has one commented out; else untouched to the character |
| ConfigMerge.WrittenIff | multiace/tools/merge_ace_cfg.py:98-120 | a user key is written in place exactly when some line of its section names it, set or commented |
| ConfigMerge.SectionIs | multiace/tools/merge_ace_cfg.py:84-95 | a line belongs to the section of the last header before it |
| ConfigMerge.AppendedSection | multiace/tools/merge_ace_cfg.py:133-139 | an appended section is its header and each of its keys once, in ascending order, with its value |
| ConfigMerge.SpacedIs | multiace/tools/merge_ace_cfg.py:129-132 | an appended section starts on its own line, behind at most one added line break |
| MergeTwice.PassTwice | multiace/tools/merge_ace_cfg.py:84-115 | the pass over its own output changes nothing and sees the same sections |
| MergeTwice.MergeIsIdempotent | multiace/tools/merge_ace_cfg.py:75-145 | merging the same user file into the merged file leaves it as it is, character for character |
| ChewDetector.BaselineIsLearned | ops/decay71_overlay/airlog_chew_patch.py:165-210 | over every history a band's baseline exists exactly after the warm-up and is the median seed averaged with the later samples |
| ChewDetector.SamplesArePlausible | ops/decay71_overlay/airlog_chew_patch.py:188-195 | suspicious and absolute-chew windows never train |
| ChewDetector.BaselineInRange | ops/decay71_overlay/airlog_chew_patch.py:196-210 | an armed baseline lies between two of its samples and below the absolute threshold |
| ChewDetector.GrowthIsBounded | ops/decay71_overlay/airlog_chew_patch.py:188-210 | n samples raise max(base, floor/ratio) by at most the factor (1 + alpha (ratio - 1)) to the n |
| ChewDetector.BaselineGrowth | ops/decay71_overlay/airlog_chew_patch.py:165-210 | the same over histories, as long as the samples are not thrown away |
| ChewDetector.SamplesGrow | ops/decay71_overlay/airlog_chew_patch.py:110-119 | only a new print or a resume of that head throws samples away |
| ChewDetector.MedianIsMiddle | ops/decay71_overlay/airlog_chew_patch.py:200-203 | more than half of the warm-up is at most the seed, at least half is at least it |
| ChewDetector.HeadsDoNotInterfere | ops/decay71_overlay/airlog_chew_patch.py:131-210 | all the detector holds of a head is what that head's own events alone would leave |
| ChewDetector.RunIsTrailing | ops/decay71_overlay/airlog_chew_patch.py:176-193 | a head's counter is the length of its longest trailing block of suspicious windows without gap or reset |
| ChewDetector.RunOfHead | ops/decay71_overlay/airlog_chew_patch.py:131-210 | the same in any history, whatever other heads do in between |
| ChewDetector.AbsoluteRunIsTrailing | ops/decay71_overlay/airlog_chew_patch.py:131-146 | in every history the absolute run is the trailing block of the head's windows at or above the driver's threshold, resumes and new prints not touching it |
| ChewDetector.ReportedRun | ops/decay71_overlay/airlog_chew_patch.py:147-163 | the reported run is the longer of the two trailing blocks, put down to the relative rule exactly if that one is longer |
| ChewDetector.SuspiciousIff | ops/decay71_overlay/airlog_chew_patch.py:165-193 | a window is suspicious exactly when it is eligible, its band is warmed up, and its delta reaches the floor and the ratio times what the band's samples taught |
| ChewDetector.SampleIff | ops/decay71_overlay/airlog_chew_patch.py:188-210 | a window is a sample of its band exactly when it is eligible, not suspicious and below the driver's threshold |
| ChewDetector.BandIs | ops/decay71_overlay/airlog_chew_patch.py:121-129 | the bands in plain numbers |
| ChewDetector.SampleMovesBaseline | ops/decay71_overlay/airlog_chew_patch.py:207-209 | a sample moves an armed baseline by alpha of its distance |
| ChewDetector.GapIsSilence | ops/decay71_overlay/airlog_chew_patch.py:181-186 | the silence before a window is counted from the head's last timed window, unless something broke off since |
| ChewDetector.WhatIsForgotten | ops/decay71_overlay/airlog_chew_patch.py:106-119 | what a resume and a new print throw away, and what they keep |
| ChewDetector.Airlog.Judge | ops/decay71_overlay/airlog_chew_patch.py:165-210 | the method on the dictionaries does what the relative rule says, run and baseline returned |
| ChewDetector.Airlog.CloseWindow | ops/decay71_overlay/airlog_chew_patch.py:131-163 | scoring a window, returning the longer of the two runs |
| ChewDetector.Airlog.ResumeFromPause | ops/decay71_overlay/airlog_chew_patch.py:110-119 | after a relative pause the head's baselines are forgotten, after any other they are kept |
| ChewDetector.Airlog.StartPrint | ops/decay71_overlay/airlog_chew_patch.py:261-268 | a new print forgets baselines, warm-up, runs and times of all heads, and keeps which rule paused which head |

## Left out

- Serial ports, sockets, USB discovery, reactor timers, HTTP, logging and announcements: outside effects.
- JSON text, UTF-8 and the response translator of v2: an opaque decoder and dumper, and a translator that may raise on
  any response; files are trees of values.
- Callbacks: the model says which is called with what, not what it then does. Nor does it say how the driver
  reconnects after a message that raised.
- Regular expressions of the post-processor: lines come classified, with the two ways in which the tool patterns differ.
- Fuzzy colour matching: any function of material and colour; normalising spool strings is not modelled.
- Header comment text, sidecar files, atomic file replacement, and the notes that `merge` prints.
- Floating point: real numbers; Unicode blanks, digits and letter case: ASCII only; `\r\n` translation on reading.
- `--layer` combined with the planner: the two passes choose heads independently, and only each is described.
- `_maybe_announce` and its own disk writes, `force_evaluate`, migration of the version 1 state file.
- Ill-typed values in the state file: decoding gives nothing, where Python would keep some of them.
- The `last_ace_data` cache: display only.
- The environment variable of the poller's gate is a parameter, and so are the outcomes of its queries and switches.
- The chew detector's try/except: no operation in the modelled rule can raise on numbers. The driver's own threshold,
  which the patch only uses, is a parameter.
