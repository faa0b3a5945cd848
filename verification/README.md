# A verified model of the radar operating system

The radar operating system lets several control programs share one or two radars. A program
describes a multi-pulse sequence; a compiler turns it into a run-length list of control codes; a
driver unpacks that list into samples for the transmitters; a server assigns frequencies and decides
when everybody is ready for a trigger; a GPS card says when. This project models those pieces in
Dafny and proves what they do for every input and over every run.

**The compiler** (`Tsg*.dfy`). `TSGMake` is an event simulator: it merges three clocks (pulse phase,
sample toggle, phase-code baud) over a table of twelve states and writes codes with repeat counts of
at most 255. `TsgWave` defines the waveform it ought to write as the OR of a pulse wave and a sample
wave, each blind to the other. `TsgSim` proves that one pass of the loop writes exactly that waveform
and keeps its place in both waves; `TsgEntries` says from the two waves alone how long a sequence is
and where its entries begin; `TsgRun` carries both over whole runs; `TsgMake` holds the compiler itself,
with a contract that gives the complete waveform and the number of entries; `TsgProperties` reads off
what it means: pulse placement and guards, phase coding, sample and lag alignment, and phantom pulses;
`TsgParameters` says what a parameter block settles on, and why one is turned down.
The loop's sentinel 32767 is modelled as it is: when it runs out after the last pulse, one more pulse
cycle is emitted. The pulse train of the model is therefore infinite, and `TsgProperties.PhantomPulses`
says exactly when a sequence reaches its unwanted part.

What the loop needs and does not check is stated in `TsgWave.Plan.Usable`: pulse and release time of
at least one step, pulses that do not overlap, a phase code for every pulse, a transmission plus its
guard below the sentinel when it is phase coded, and no phase code without pulses (unless the
sequence is over before the sentinel). `TsgMake.Block.Callable` adds that no divisor is zero.

**The transmitter driver** (`Dds*.dfy`, `EndToEnd.dfy`). `DdsUnpack` expands and decodes a sequence;
`EndToEnd` composes it with the compiler. `DdsDriver` is the state kept between messages as a class
with one method a message; `DdsRuns` holds runs of it that go wrong; `DdsFrames` fills the DAC
frames; `DdsLink` is the field stream between server and driver.

**The server.** `Spectrum` and `FrequencyServer` are frequency assignment, `Coordinator` is the
trigger, `ThreadList` the linked list of program threads with its expiry sweep, `SlotRegistry` the
table of radar and channel slots. `ClearSearch` is the pair of clear-frequency drivers and the server's
relabelling of their spectra; `FrequencySearch` puts search and assignment together. **The GPS card** is `GpsCompare`.

Run-level statements are class invariants (`Valid`) that every method keeps.

## Findings

Where a promise turned out not to hold of the code, the model keeps the code and states the condition.

- Phantom pulses: a sequence switches the attenuators on, and the transmitter after them, where its
  pattern has no pulse if and only if the last sample goes up no earlier than the sentinel after the last
  cycle runs out, `TsgEntries.Overruns`, a test on the parameters (`TsgProperties.PhantomPulses`). A block
  that asks for no pulse at all is accepted and transmits (`TsgProperties.ReceiveOnlyTransmits`).
- Buffer overrun: the code array is allocated before anything is counted. `TsgMake.EntryCount` is the
  exact number of entries, from the two waves alone. It fits in the roomy case (`TsgMake.EntriesFit`) and
  is too much in the crowded one (`TsgMake.EntriesOverflow`), as it is for the same accepted block.
- The last bin of a search is never considered, although the comments speak of all frequencies of the
  band (`Spectrum.LastBinsArePassedOver`, `FrequencySearch.LastIsPassedOver`). Every search overwrites the
  program's band with the window its driver searched, so the whole spectrum sent is in band. The weakest
  allowed bin is found if and only if the last one is excluded or some allowed bin considered is no
  stronger; with any sideband the last bin carries the edge power, so that only fails if all others are
  excluded or stronger than that (`FrequencyServer.MissedOrBest`, `FrequencySearch.WhatIsMissed`). In
  `FrequencySearch.NothingAssigned` nothing is assigned although a frequency is allowed.
- The band requested is not the band assigned from. With the first driver the frequency is always within
  the request. With the second it can lie outside if and only if more values are sent than the even width
  of the request and one (`FrequencySearch.LabelsInRequest`, `FrequencySearch.AssignedWhere`,
  `FrequencySearch.AssignedOutside`), as for the request of `FrequencySearch.WideAnswer`.
- The label the server gives a power value is its true frequency if and only if an even number of
  values is sent; for the second receiver driver that is so for 8, 16, 32, 128 and 256 bins only
  (`ClearSearch.LabelError`, `ClearSearch.Gc316LabelsAreExact`), and not for the request of
  `ClearSearch.OddSearch`.
- The ready table is empty at the trigger when all eight pairs are ready, because the count wraps
  (`DdsDriver.Driver.Survey`, `DdsDriver.Driver.Pretrigger`): in the run of `DdsRuns.EightReady` the
  trigger plays silence.
- The id that decides whether frames are made anew is the sum of what its pairs and its indices add
  (`DdsDriver.IdIsSum`). It tells rounds of one client apart (`DdsDriver.SingleIdsAreDistinct`) and a round
  in which one client changed its sequence (`DdsDriver.OneChangeIsSeen`). For the same pairs it is equal if
  and only if the indices add up to the same (`DdsDriver.SamePairIds`), so in every larger size there are
  two rounds it takes for one (`DdsDriver.IdsCollide`), and different pairs can share an id too
  (`DdsDriver.PairsCollide`). Kept frames are right if and only if the round they were made from calls for
  the same output (`DdsDriver.FramesSame`, `DdsDriver.Driver.Pretrigger`); in the run of
  `DdsRuns.TradedSequences` they are not.
- A sequence registered between a client's ready request and the trigger leaves its old samples in the
  cache for that trigger, as in the run of `DdsRuns.StaleFrames`. Frames made anew are those of the
  registered sequences if and only if the cached buffers agree with them sample by sample
  (`DdsDriver.FramesAgree`, `DdsDriver.Driver.Pretrigger`). A round is current, and so agrees, unless a
  pair of it was registered anew after it got ready (`DdsDriver.Driver.RegisterSeq`,
  `DdsDriver.Driver.Ready`).
- A request that leaves only the radar or only the channel open can fail while a fitting slot is free
  (`SlotRegistry.HalfOpenRequestsCanFail`); `SlotRegistry.Registry.Register` states exactly when it succeeds.
- The compare register has no year: a time is read back if and only if it is read in its own year, and
  day 366 read in a common year leaves the month unset (`GpsCompare.RoundTrip`). Around New Year the
  monitor therefore fails in two ways. A late time of the old year is taken for one a year ahead
  (`GpsCompare.LateAtNewYear`). And while the clock stands in the last interval of a year, the register is
  moved on to the start of that same year: the passes catch up with the clock if and only if the register
  is ahead of it or the first later time is still in the year of the clock (`GpsCompare.CatchesUp`).

## Model

| member | source | states |
|---|---|---|
| TsgStates.TableIsProduct | ros6/tsg/maketsg.c:152-169 | the twelve-state table is exactly the product of a six-phase cycle and a sample toggle |
| TsgWave.BaudInRange | ros6/tsg/maketsg.c:428-440 | the baud index stays below the number of bauds and the phase-code table is never read outside its bounds |
| TsgWave.StartsIncrease | ros6/tsg/maketsg.c:523-529 | pulses never overlap, in the pattern and beyond it |
| TsgWave.PulseWaveIn | ros6/tsg/maketsg.c:144-150 | at most one pulse covers a step, so the pulse wave is the code of that pulse alone |
| TsgWave.PulseWaveIsBlind | ros6/tsg/maketsg.c:346-360 | the pulse wave does not change with anything the samples depend on |
| TsgSim.FactorsMove | ros6/tsg/maketsg.c:497-512 | an event moves pulse phase and sample level independently, whichever of the three clocks is first |
| TsgSim.Pass | ros6/tsg/maketsg.c:472-531 | one pass takes time, writes exactly the superposition of the two waves, keeps the loop's place in both trains and counts rising edges without overshooting |
| TsgSim.BaudStep | ros6/tsg/maketsg.c:483-519 | the baud counter and index stay in step with the offset into the pulse however sample events split it |
| TsgSim.PulseStep | ros6/tsg/maketsg.c:503-530 | the pulse counter always ends the current phase of the current pulse, and reloads with the gap to the next start or the sentinel |
| TsgEntries.NoEventInside | ros6/tsg/maketsg.c:490-495 | nothing happens in either wave while a pass holds its code |
| TsgEntries.EventAtEnd | ros6/tsg/maketsg.c:490-512 | a pass ends with the next toggle, pulse edge or baud, or when the sentinel has run out |
| TsgEntries.WriteOpens | ros6/tsg/maketsg.c:177-187 | one write takes exactly the entries that begin between one event and the next |
| TsgEntries.Length | ros6/tsg/maketsg.c:472 | a sequence ends after its last sample has gone up and no later than half a sample after that |
| TsgEntries.EndsAtEvent | ros6/tsg/maketsg.c:472-495 | it ends with whatever comes first after the last sample has gone up |
| TsgEntries.OverrunsMeans | ros6/tsg/maketsg.c:523-530 | a sequence reaches a pulse beyond the pattern if and only if the last sample goes up no earlier than that pulse starts |
| TsgRun.CostCovers | ros6/tsg/maketsg.c:177-191 | no pass writes more entries than its events and the time before the first sample account for |
| TsgRun.CostBound | ros6/tsg/maketsg.c:447-461 | without phantom pulses the entries of a run are bounded by samples, pulses and bauds |
| TsgRun.KeepRunning | ros6/tsg/maketsg.c:472-531 | every pass keeps the loop in both waves, with as many entries written as begin in the steps written |
| TsgRun.HasRun | ros6/tsg/maketsg.c:472 | a finished run has the length, the samples and the entries the two waves call for |
| TsgBuffer.RisesAppend | ros6/tsg/maketsg.c:188-189 | the edge counter's rule counts the rising edges of the waveform written |
| TsgBuffer.EntriesAreLeast | ros6/tsg/maketsg.c:177-187 | a write takes the fewest entries of at most 255 steps, and a negative delay is cut to a byte |
| TsgBuffer.ExpandPrefix | ros6/tsg/maketsg.c:545-550 | adding up repeat counts walks along the waveform |
| TsgBuffer.TsgBuf.WrBuf | ros6/tsg/maketsg.c:177-191 | a write appends the code for its delay (truncated to a byte if negative) however it is split, and keeps the counter equal to the rising edges of the whole waveform |
| TsgBuffer.TsgBuf.LeadSteps | ros6/tsg/maketsg.c:545-550 | the readback returns the number of steps before the first sample |
| TsgMake.TsgPrm.Settle | ros6/tsg/maketsg.c:290-318 | the whole parameter block after lag, pulse length and sample separation are settled |
| TsgMake.Check | ros6/tsg/maketsg.c:227-440 | which error each block gets, what is left in the block, and the plan of an accepted one |
| TsgParameters.LengthIs | ros6/tsg/maketsg.c:297-303 | where the pulse length comes from |
| TsgParameters.SeparationIs | ros6/tsg/maketsg.c:297-318 | a sample separation for every baud makes up the pulse length, exactly where even separations can, and otherwise to within the rounding |
| TsgParameters.OneSampleABaud | ros6/tsg/maketsg.c:305-318 | in a phase-coded pulse that divides evenly a sample separation is a baud |
| TsgParameters.DurationsAre | ros6/tsg/maketsg.c:361-404 | every duration of an accepted block in microseconds, the release time asked for included |
| TsgParameters.SamplesAre | ros6/tsg/maketsg.c:372-380 | a sample every separation up to the last pulse, and then one for every separation the range holds |
| TsgParameters.OutcomeMeans | ros6/tsg/maketsg.c:320-440 | a block with pulses is accepted if and only if spacing and lag are whole separations, less than a twentieth is transmitted, separations are even and bauds whole; and the reason for each refusal |
| TsgParameters.TwoBaudsCompile | ros6/tsg/maketsg.c:206-440 | a phase-coded block is accepted with separation 300 and 291 samples |
| TsgMake.NextEntry | ros6/tsg/maketsg.c:473-491 | the code and duration of the next entry are those of the pure pass |
| TsgMake.NextEvent | ros6/tsg/maketsg.c:499-530 | the loop variables after an event are those of the pure pass |
| TsgMake.EventLoop | ros6/tsg/maketsg.c:472-531 | the loop terminates, appends exactly the ideal waveform, one entry wherever one begins, and stops with the first event after the last sample has gone up |
| TsgMake.LayoutOf | ros6/tsg/maketsg.c:464-541 | header, start delay, ideal steps and closing idle time, concatenated, are the layout promised |
| TsgMake.EntriesFit | ros6/tsg/maketsg.c:447-461 | with half a sample in one entry, no phantom pulse, the first pulse at once and moderate delays, the entries fit the memory allocated |
| TsgMake.EntriesOverflow | ros6/tsg/maketsg.c:447-461 | a sampling time of 255 steps for every byte allocated, or more, takes more entries than are allocated |
| TsgMake.TSGMake | ros6/tsg/maketsg.c:206-555 | a compiled sequence is one scope step, the start delay, the superposition of pulse and sample waves and the closing idle time, with exactly the planned number of samples, the exact number of entries (and whether they fit) and the sample delay read back |
| TsgProperties.BitsInPulse | ros6/tsg/maketsg.c:350-360 | which bit is set where inside a pulse |
| TsgProperties.PulsePlacement | ros6/tsg/maketsg.c:382-420 | pulse k starts pat[k]*mpnc+1 steps after the header and is attenuated, receiver-off, transmitting and released for the times given |
| TsgProperties.PulsesOnlyWherePlaced | ros6/tsg/maketsg.c:472-541 | outside pulse cycles nothing but the sample bit is ever set |
| TsgProperties.TransmitIsGuarded | ros6/tsg/maketsg.c:400-409 | the transmitter is never on without attenuators and receiver guard from t3 steps before to t4 steps after |
| TsgProperties.PhaseCoding | ros6/tsg/maketsg.c:428-519 | at every offset into a pulse the phase bit is the sign of the code entry that offset belongs to |
| TsgProperties.SampleBitIsSampleWave | ros6/tsg/maketsg.c:350-360 | the sample bit of the waveform is the sample wave, whatever the pulses do |
| TsgProperties.WaveRises | ros6/tsg/maketsg.c:410-422 | sample i goes up exactly at its place in the sample train |
| TsgProperties.SampleShape | ros6/tsg/maketsg.c:405-420 | the sample bit is set for the first half of every separation |
| TsgProperties.RisesWhere | ros6/tsg/maketsg.c:413-422 | at which steps samples go up, with pulses and without |
| TsgProperties.LayoutIs | ros6/tsg/maketsg.c:464-541 | scope code, start delay, sequence and closing idle time in numbers |
| TsgProperties.LeadIsFirstRise | ros6/tsg/maketsg.c:545-552 | the readback measures header, start delay and the way to the first sample |
| TsgProperties.DelayIsNearest | ros6/tsg/maketsg.c:551-552 | the sample delay is that time in range gates, rounded to the nearest |
| TsgProperties.AcceptedIsAligned | ros6/tsg/maketsg.c:320-370 | an accepted block has even sample separations that divide pulse spacing and lag to first range |
| TsgProperties.SevenPulsesCompile | ros6/tsg/maketsg.c:206-461 | an ordinary seven-pulse block is accepted, with its plan, its last pulse and room for its entries |
| TsgProperties.LagAlignment | ros6/tsg/maketsg.c:361-422 | the sample for pulse k and gate g goes up the lag to first range plus g separations after the centre of pulse k, where the transmitter is on |
| TsgProperties.WholeLags | ros6/tsg/maketsg.c:378-422 | samples of two pulses at one range are whole lags apart |
| TsgProperties.PhantomPulses | ros6/tsg/maketsg.c:523-530 | the attenuators go on outside the pattern if and only if the last sample goes up no earlier than the sentinel after the last cycle runs out |
| TsgProperties.OverrunsIs | ros6/tsg/maketsg.c:523-530 | the condition for it in numbers |
| TsgProperties.PhantomAt | ros6/tsg/maketsg.c:523-530 | what goes on there is a whole pulse, transmission included |
| TsgProperties.ReceiveOnlyTransmits | ros6/tsg/maketsg.c:416-530 | an accepted block without pulses transmits, and overruns its buffer |
| DdsUnpack.DecodeMeans | ros6/ddsserver_tcp_driver/_decodestate.c:14-23 | decoding keeps the transmit bit, and the phase bit while transmitting |
| DdsUnpack.StretchAt | ros6/ddsserver_tcp_driver/main.c:385-397 | sample i belongs to step i divided by the ratio of the clocks |
| DdsUnpack.RatioIs | ros6/ddsserver_tcp_driver/main.c:376-384 | the ratio of the clocks is rounded to the nearest |
| DdsUnpack.Unpack | ros6/ddsserver_tcp_driver/main.c:377-397 | unpacking yields the decoded waveform stretched by the ratio without the samples of the start delay |
| EndToEnd.DecodeIdeal | ros6/ddsserver_tcp_driver/_decodestate.c:14-23 | a decoded ideal step is nonzero exactly on transmission and negative exactly where the code inverts |
| EndToEnd.PlayedSource | ros6/ddsserver_tcp_driver/main.c:376-398 | which step of a compiled sequence a played sample comes from, and how many there are |
| EndToEnd.PlayedWaveform | ros6/ddsserver_tcp_driver/main.c:376-398 | what is played for a compiled sequence drives and inverts the transmitter exactly where the pulse train says |
| EndToEnd.DacFollowsPlan | ros6/ddsserver_tcp_driver/timing_sequence.c:134-143 | from the parameter block to the DAC: an output carries its program's share of the drive, positive or inverted, exactly while the compiled pulse train transmits |
| DdsFrames.ActiveIsUsed | ros6/ddsserver_tcp_driver/timing_sequence.c:80-93 | the number of active channels of a radar is the number of its channels in the table |
| DdsFrames.CountActive | ros6/ddsserver_tcp_driver/timing_sequence.c:80-93 | active channels and their number for every radar |
| DdsFrames.CellNext | ros6/ddsserver_tcp_driver/timing_sequence.c:134-177 | a client changes its own output and its radar's IF output and no other |
| DdsFrames.TimingSequence | ros6/ddsserver_tcp_driver/timing_sequence.c:61-178 | every cell of the frame buffer: a listed client's sample times its share, the IF constant, or 0 |
| DdsFrames.ClientCell | ros6/ddsserver_tcp_driver/timing_sequence.c:134-143 | a listed client's output lies in range and carries its samples scaled to a share that is not 0 |
| DdsFrames.ShareOfDrive | ros6/ddsserver_tcp_driver/timing_sequence.c:64-143 | a transmitting client drives its output with 28355 or 26500 divided by the number of listed channels of its radar, cut down, in or against phase |
| DdsFrames.ElseSilent | ros6/ddsserver_tcp_driver/timing_sequence.c:79-143 | other channel outputs are silent |
| DdsFrames.IfOutputs | ros6/ddsserver_tcp_driver/timing_sequence.c:151-166 | which outputs carry the constant in IF mode, and when |
| DdsFrames.FramesEnd | ros6/ddsserver_tcp_driver/timing_sequence.c:58-61 | 20 frames of silence close the buffer |
| DdsFrames.DriveIsBounded | ros6/ddsserver_tcp_driver/timing_sequence.c:64-72 | in every frame the drives of a radar's channels add up to at most 28355 or 26500 |
| DdsDriver.UnpackedIsUnit | ros6/ddsserver_tcp_driver/main.c:387-397 | unpacked samples are -1, 0 or 1, which bounds what the frames can carry |
| DdsDriver.PlacedIsLatest | ros6/ddsserver_tcp_driver/main.c:366-373 | the ready table holds each pair once with its latest parameters and never outgrows the pairs |
| DdsDriver.StaysCurrent | ros6/ddsserver_tcp_driver/main.c:376-404 | after a ready request the round is current if and only if its other clients were |
| DdsDriver.CurrentUnless | ros6/ddsserver_tcp_driver/main.c:325-342 | forgetting a cached copy leaves the round current if and only if its pair is not in the round |
| DdsDriver.TableKeeps | ros6/ddsserver_tcp_driver/main.c:366-373 | table, positions and wrapped count describe the round after every ready request |
| DdsDriver.Driver.RegisterSeq | ros6/ddsserver_tcp_driver/main.c:296-342 | registering replaces one sequence, forgets the cached copy of its pair and the reload id, keeps the cache coherent, and leaves the round current if and only if the pair is not in it |
| DdsDriver.Driver.Ready | ros6/ddsserver_tcp_driver/main.c:360-406 | a ready request places the client, leaves the unpacking of its registered sequence in the cache, and keeps the round current |
| DdsDriver.Driver.Survey | ros6/ddsserver_tcp_driver/main.c:415-427 | reload id and longest sequence of the table, which is the round unless every pair is ready |
| DdsDriver.Driver.Pretrigger | ros6/ddsserver_tcp_driver/main.c:408-572 | when frames are made anew, what they are made from, and that they are those of the registered sequences if and only if that calls for the same output |
| DdsDriver.FramesAgree | ros6/ddsserver_tcp_driver/timing_sequence.c:114-178 | frames made from some buffers are those of others if and only if the longest are equally long and listed clients have the same samples |
| DdsDriver.FramesSame | ros6/ddsserver_tcp_driver/timing_sequence.c:114-178 | frames made from one round and its buffers are those of another if and only if the two call for equally many frames, the same drives and the same constants |
| DdsDriver.CurrentAgree | ros6/ddsserver_tcp_driver/main.c:376-435 | the cached buffers of current clients agree with the registered sequences |
| DdsDriver.SameFrames | ros6/ddsserver_tcp_driver/main.c:429-435 | rounds with the same pairs and sequences call for the same frames, in whatever order they got ready |
| DdsDriver.SingleIdsAreDistinct | ros6/ddsserver_tcp_driver/main.c:422-424 | for rounds of one client the reload id is equal if and only if pair and sequence are |
| DdsDriver.IdIsSum | ros6/ddsserver_tcp_driver/main.c:422-424 | the reload id is made of the pairs and the sum of the indices |
| DdsDriver.IdGrows | ros6/ddsserver_tcp_driver/main.c:415-424 | what every client adds to the reload id |
| DdsDriver.SamePairIds | ros6/ddsserver_tcp_driver/main.c:422-424 | for the same pairs the reload id is equal if and only if the indices add up to the same |
| DdsDriver.OneChangeIsSeen | ros6/ddsserver_tcp_driver/main.c:422-426 | a round in which one client changed its sequence has another id |
| DdsDriver.IdsCollide | ros6/ddsserver_tcp_driver/main.c:422-424 | in every size from two to seven clients two rounds with different sequences have the same id |
| DdsDriver.PairsCollide | ros6/ddsserver_tcp_driver/main.c:422-424 | two rounds with different pairs have the same reload id |
| DdsRuns.StaleFrames | ros6/ddsserver_tcp_driver/main.c:296-435 | a run of ready request, registration and trigger whose frames are of the sequence that is gone |
| DdsRuns.TradedSequences | ros6/ddsserver_tcp_driver/main.c:415-435 | a run in which two clients trade sequences and the frames of the round before are kept |
| DdsRuns.EightReady | ros6/ddsserver_tcp_driver/main.c:403-435 | a run in which all eight pairs get ready and the trigger plays silence |
| DdsLink.AllSentAppend | ros6/server/dds_handler.c:25-41 | what is pending is the requests not served yet, field by field |
| DdsLink.SentIs | ros6/server/dds_handler.c:27-41 | where every field of a registration is |
| DdsLink.Link.Serve | ros6/ddsserver_tcp_driver/main.c:292-364 | the driver reads exactly the fields of one request, blocks of its own length included, and replies once if it should |
| DdsLink.Link.Exchange | ros6/server/dds_handler.c:25-115 | after every exchange nothing is pending to the server and only end headers may be pending to the driver |
| Spectrum.Accumulate | ros6/server/reciever_handler.c:262-267 | the loop adds up exactly the bins of the window that exist |
| Spectrum.SumSplits | ros6/server/reciever_handler.c:294-301 | sums of neighbouring stretches add up |
| Spectrum.SmoothedMeans | ros6/server/reciever_handler.c:293-311 | a smoothed bin is the mean of its full window, any other carries the edge power |
| Spectrum.SmoothedRaised | ros6/server/reciever_handler.c:293-311 | every power of the window counts the same and no other counts |
| Spectrum.DetrendedMeans | ros6/server/reciever_handler.c:249-283 | what is taken off and kept is the mean of the wide window as far as it goes |
| Spectrum.DetrendedRaised | ros6/server/reciever_handler.c:249-283 | every power of the wide window counts the same and no other counts |
| Spectrum.Detrend | ros6/server/reciever_handler.c:249-283 | every bin less the mean of its wide window, which is saved |
| Spectrum.Smooth | ros6/server/reciever_handler.c:293-311 | every bin gets the mean of its full window, or the edge power if the window is not full |
| Spectrum.InBandMeans | ros6/server/reciever_handler.c:355-373 | the bins of the band are those within its limits |
| Spectrum.LimitToBand | ros6/server/reciever_handler.c:349-378 | the array of the band, its last element overwritten past the end, holds the bins considered |
| Spectrum.LastBinsArePassedOver | ros6/server/reciever_handler.c:355-466 | how many bins of a band are not considered: one, or all from the last of the width on |
| Spectrum.SortByPower | ros6/server/reciever_handler.c:35-44 | the bins sorted by smoothed power, none lost |
| FrequencyServer.OthersHave | ros6/server/reciever_handler.c:411-436 | every other program that is not gone has its band on the list |
| FrequencyServer.OthersAre | ros6/server/reciever_handler.c:411-436 | a band is on the list if and only if it is that of another program that is not gone |
| FrequencyServer.SidebandIs | ros6/server/reciever_handler.c:232-234 | the sideband is the least even number of kHz of at least twice the sample rate |
| FrequencyServer.AllowedMeans | ros6/server/reciever_handler.c:464-485 | a bin is kept if and only if no window on the list holds it |
| FrequencyServer.AssignSeparates | ros6/server/reciever_handler.c:404-485 | a frequency outside the others' bands keeps all programs separated and out of restricted windows |
| FrequencyServer.AssignedIsBest | ros6/server/reciever_handler.c:508-577 | the assigned frequency is in band, outside every window and weakest of the bins considered, with its noise restored |
| FrequencyServer.AssignedNone | ros6/server/reciever_handler.c:584-593 | with no bin allowed there is no frequency and the worst noise |
| FrequencyServer.MissedOrBest | ros6/server/reciever_handler.c:464-577 | what is assigned is weakest of all allowed bins of the band if and only if every allowed bin passed over has one no weaker among those considered |
| FrequencyServer.LastBinDecides | ros6/server/reciever_handler.c:464-577 | for a band with no more bins than it is wide that is a question of its last bin |
| FrequencyServer.Server.FillBlacklist | ros6/server/reciever_handler.c:404-436 | the restricted prefix is untouched and the headroom takes the bands of all other programs |
| FrequencyServer.Server.Exclude | ros6/server/reciever_handler.c:464-485 | exactly the bins outside every window survive |
| FrequencyServer.Server.AssignFrequency | ros6/server/reciever_handler.c:66-593 | the weakest allowed bin or none is assigned, nothing else changes, and separation holds again |
| FrequencyServer.Server.Connect | ros6/server/main.c:453-503 | a new program, with a sideband nobody set, keeps all separations |
| FrequencyServer.Server.SetActive | ros6/server/client_handler.c:501-540 | activity changes keep all separations and never revive a program that is gone |
| FrequencyServer.Server.Exit | ros6/server/client_handler.c:299 | leaving keeps all separations |
| Coordinator.CountsDecide | ros6/server/coordination_handler.c:47-75 | comparing the counts decides whether all active programs, at least one, are ready |
| Coordinator.FlaggedUpdate | ros6/server/coordination_handler.c:40-44 | marking a program changes the number of ready flags by its own |
| Coordinator.CoordinatedIs | ros6/server/coordination_handler.c:40-201 | what a pass makes of the programs in their own terms: who must be ready, and who comes out ready or processing |
| Coordinator.Server.CoordinationHandler | ros6/server/coordination_handler.c:34-201 | a trigger fires if and only if some program is active and all others that are were ready; it hands over exactly what was ready, and none is ever left due when the lock is released |
| Coordinator.Server.SetActive | ros6/server/client_handler.c:501-540 | an activity change coordinates and leaves no trigger due |
| Coordinator.Server.Exit | ros6/server/client_handler.c:276-301 | a leaving program fires the trigger the others waited for |
| Coordinator.Server.Connect | ros6/server/client_handler.c:208-274 | a new program is active and not ready, so no trigger is due |
| Coordinator.Server.Remove | ros6/server/timeout_handler.c:75-86 | removing a program that is gone neither makes a trigger due nor undoes one |
| ClearSearch.LeastPowerIs | ros6/gc314_tcp_driver/main.c:926 | the number of bins is the least power of two that is large enough |
| ClearSearch.PlanIsSound | ros6/gc314_tcp_driver/main.c:914-941 | what is sent always lies within the bins there are, for both drivers |
| ClearSearch.PlanIs | ros6/gc316_tcp_driver/main.c:917-949 | centre, number of bins and number of values sent in terms of the request, for both drivers |
| ClearSearch.ShiftAndTrim | ros6/gc314_tcp_driver/main.c:1130-1163 | value k sent is the power the FFT found at the bin of its frequency |
| ClearSearch.Relabel | ros6/server/reciever_handler.c:890-916 | the server's labels and powers, by way of its table of latest powers |
| ClearSearch.LabelError | ros6/server/reciever_handler.c:890-915 | the label of a value less its true frequency is the number of values sent modulo 2 |
| ClearSearch.Gc314LabelsAreExact | ros6/gc314_tcp_driver/main.c:922-932 | the first driver sends an even number of values |
| ClearSearch.Gc316LabelsAreExact | ros6/gc316_tcp_driver/main.c:938-943 | for which numbers of bins the second driver does |
| ClearSearch.OddSearch | ros6/gc316_tcp_driver/main.c:938-943 | a request whose labels are all a kHz too high |
| ClearSearch.SearchAndLabel | ros6/gc316_tcp_driver/main.c:917-1176 | from the request to the labelled spectrum: each label carries the power of its own frequency, or of the one a kHz below if an odd number is sent |
| FrequencySearch.LabelsInWindow | ros6/server/reciever_handler.c:878-903 | every label lies in the window searched, which is wide enough for all |
| FrequencySearch.LastIsPassedOver | ros6/server/reciever_handler.c:349-466 | the whole spectrum of a search is in band, and exactly its last bin is not considered |
| FrequencySearch.WhatIsMissed | ros6/server/reciever_handler.c:293-485 | for the spectrum of a search, when the bins considered miss nothing |
| FrequencySearch.LabelsInRequest | ros6/gc316_tcp_driver/main.c:938-951 | the labels considered lie within the request if and only if no more values are sent than its even width and one, as always by the first driver |
| FrequencySearch.AssignedWhere | ros6/server/reciever_handler.c:464-571 | an assigned frequency is a label other than the last, outside every window, and within the request if the labels are |
| FrequencySearch.SearchAndAssign | ros6/server/reciever_handler.c:66-593 | from the request of a program to its frequency, with all separations kept |
| FrequencySearch.AssignedOutside | ros6/server/reciever_handler.c:464-571 | where more values are sent and the request is restricted, a frequency outside it is assigned |
| FrequencySearch.WideAnswer | ros6/gc316_tcp_driver/main.c:938-951 | a request the second driver answers with more than it asked for |
| FrequencySearch.NothingAssigned | ros6/server/reciever_handler.c:464-592 | a search that assigns nothing although a frequency is allowed |
| GpsCompare.NibbleOfPack | ros6/gps_tcp_driver/_refresh_state.c:189-190 | a digit packed into a word is read back from its place |
| GpsCompare.WordsAre | ros6/gps_tcp_driver/_refresh_state.c:154-190 | where every digit is in the two words |
| GpsCompare.CalendarIs | ros6/gps_tcp_driver/_get_compare_time.c:41-165 | the lengths of months and years |
| GpsCompare.MonthAndDay | ros6/gps_tcp_driver/_get_compare_time.c:41-165 | a month is found if and only if the year has the day, and month and day give that day again |
| GpsCompare.RoundTrip | ros6/gps_tcp_driver/_get_compare_time.c:30-191 | the register reads as the same day and time of the year it is read in, if that year has the day, and as the time written, down to the microsecond, if and only if it is read in its own year |
| GpsCompare.Register.Set | ros6/gps_tcp_driver/_refresh_state.c:140-194 | how the register reads in every year after a time is written |
| GpsCompare.IncrementAdds | ros6/gps_tcp_driver/_refresh_state.c:113-124 | incrementing adds the interval and keeps the time normal |
| GpsCompare.GreaterIsLater | ros6/gps_tcp_driver/_refresh_state.c:298-305 | comparing fields compares times |
| GpsCompare.LateAtNewYear | ros6/gps_tcp_driver/_refresh_state.c:279-283 | a time of last year passes for one to come until that time of this year |
| GpsCompare.CatchesUp | ros6/gps_tcp_driver/_refresh_state.c:277-291 | repeated passes get past the clock if and only if the first later time is still in its year |
| GpsCompare.GoesRound | ros6/gps_tcp_driver/_refresh_state.c:277-291 | otherwise the readings stay within the year and never get past the clock |
| GpsCompare.Register.Pass | ros6/gps_tcp_driver/_refresh_state.c:277-287 | one pass reads the register in the year of the clock, and moves it on by an interval if it is late |
| GpsCompare.Register.CatchUp | ros6/gps_tcp_driver/_refresh_state.c:277-291 | where they do, repeated passes stop at the first whole number of intervals later than now |
| ThreadList.WithoutMeans | ros6/server/timeout_handler.c:41-90 | the list without the expired items holds exactly the others |
| ThreadList.ExpiredMeans | ros6/server/timeout_handler.c:43-44 | when an item goes |
| ThreadList.SweepStep | ros6/server/timeout_handler.c:41-90 | looking at one item removes it if it has expired and leaves the rest in order |
| ThreadList.Threads.Insert | ros6/server/main.c:473-498 | inserting at the head keeps a well-formed list |
| ThreadList.Threads.Count | ros6/server/main.c:499-503 | the walk counts the items |
| ThreadList.Threads.Unlink | ros6/server/timeout_handler.c:75-86 | taking an item out keeps a well-formed list of the others |
| ThreadList.Threads.Sweep | ros6/server/timeout_handler.c:40-90 | the sweep ends, removes exactly the expired items and keeps the order of the rest |
| SlotRegistry.PairsAreDistinct | ros6/server/client_handler.c:54-61 | a slot is known by its radar and channel |
| SlotRegistry.GrantedAsNamed | ros6/server/client_handler.c:185-200 | a granted slot has the radar and channel named, and what was left open from the first free slot |
| SlotRegistry.Registry.Unregister | ros6/server/client_handler.c:31-47 | a program's slot is freed and no other |
| SlotRegistry.Registry.Register | ros6/server/client_handler.c:182-206 | when a request succeeds and what it changes; every program holds at most one slot |
| SlotRegistry.Registry.Find | ros6/server/client_handler.c:49-63 | the program that holds a radar and channel is found |
| SlotRegistry.RequestsMean | ros6/server/client_handler.c:187-204 | explicit requests succeed if and only if nobody else holds the slot, open ones get the first free slot |
| SlotRegistry.HalfOpenRequestsCanFail | ros6/server/client_handler.c:191-193 | a half-open request can fail while a fitting slot is free |

## Left out

- Integers are unbounded: the 32-bit overflow of intermediate products in `TSGMake`, of the reload id and of sample counts is not modelled. Bytes of the run-length buffer and the unsigned time difference of the expiry sweep are.
- Floating point: powers, averages and the clock ratio are exact reals; the fast Fourier transform is an arbitrary array.
- Memory: allocation never fails, buffers other than the compiler's code array have no capacity, and freed objects are only unlinked. The copy of the parameter block attached to a compiled sequence is not made.
- The table of states is a function of the plan, not a global that each call overwrites; every duration that is read is written first by the same call.
- The two checks of `TSGMake` on a range separation that is not positive can never fire after the first one and are not modelled; nor is the clamp of the blacklist count, which the headroom makes unreachable.
- The scope gate option of `TSGMake` only clears a variable that is already clear.
- TsgMake.EntriesFit: a simple sufficient bound beside the exact count; between the roomy and the crowded case the count itself decides.
- FrequencyServer.Server.AssignFrequency: a server without a blacklist array or a program without a spectrum is not modelled.
- Coordinator.Server.CoordinationHandler: hardware calls, transmitter read-back and event times inside the trigger are not modelled; a pass is one atomic step.
- DdsDriver.Driver.Pretrigger: setting transmitter frequencies and filters, and imaging mode, are not modelled.
- SlotRegistry.Registry.Register: the copies of radar and channel in a program's parameter block, which unregistering sets to 0, are not modelled.
- GpsCompare.RoundTrip: the system clock's year is a parameter, and broken-down times are those of UTC, in years before 2100.
- Sockets, select loops, printing, diagnostic files, devices, threads and locks: each message or locked section is one step. Unlocked races are not modelled.
- Parameter exchange, data collection, transmitter status, beam steering, receiver front-end settings and the timing driver.
