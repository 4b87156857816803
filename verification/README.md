# Models and proofs for xray-rust's protocol and release tooling

This project models the state machines, parsers and arithmetic that the repository's release
evidence and transports rest on, and proves properties of them with Dafny 4.11.
`dafny verify dfyconfig.toml` checks everything. Nothing here executes the original programs.

Each part follows the form of its source. Code that mutates state is a class or a method with
loops, proved equal to a pure specification; the properties over whole runs are lemmas about that
specification.

* **Campaign timeline** (`Timeline`, `ReportBuilder`, `TransitionMarker`, `MarkerSimulation`,
  `AcceptedTimelines`, `CampaignRun`, `CampaignOutcomes`, `OverlappingMarkers`, `TimelineLines`,
  `CampaignMishaps`,
  `MobileEvidence`, `SampleGate`, `ReleaseGate`). A runner
  appends start, probe and end events of a device campaign, a marker tool rescans the log before it
  appends a scenario marker, a report builder replays the log incrementally and a release checker
  reads the result. The rescan simulates the replay; over every interleaving the builder's loop
  accepts a log exactly when it is clean, and with overlapping markers exactly when in addition
  nothing was overtaken and every marker is still admitted where it lands; the tool as a whole exactly
  when moreover every line is short enough to load; a report comes out exactly when the campaign is complete, and meets
  the release checker.
* **TLS ClientHello oracles** (`Wire`, `ClientHello`, `KeyShareLocator`, `ClientHelloShape`,
  `ClientHelloParsers`, `ClientHelloAgreement`). Two cursor parsers over sections 4.1.2, 4.2 and
  4.2.8 of RFC 8446 equal specifications that invert the encoding, and agree with each other.
* **mKCP** (`KcpEngine`, `KcpReliability`, `KcpWrap`, `KcpPhases`, `KcpMachine`, `KcpSegments`). Two engines over a network
  that loses, repeats and reorders datagrams: reads are a prefix of writes, nothing is lost without a
  discard, up to exactly 2^32 segments; phases only move forward; and the segment codec round trips.
* **UDP delay relay** (`DelayRelay`). Conservation, order and pacing over every run.
* **Fragmenting connection** (`FragmentConn`). What reaches the wire under every pattern of partial
  writes.
* **Publication checker** (`PublicationJson`, `OrderStatistics`, `Invocation`). Worklists that
  decide recursive definitions, order statistics, and a parser inverse to its printer.
* **Internet checksum** (`InternetChecksum`) and **probe servers** (`ProbeDns`, `HoldServer`).

## What the proofs found

Places where the code and the property one would expect of it part. Each has an input that shows it
and its exact condition:

* The marker allows notes the builder refuses, the delete character for one
  (`CampaignMishaps.DeleteNoteRun`), and admits markers after the campaign end while the state file
  exists (`CampaignMishaps.LateMarkerRun`). Both are conditions of a clean log, and
  `CampaignRun.RunAcceptedIffClean` says that the builder's loop accepts the clean logs and no others.
* The report tool refuses a log with a line of more than 4096 bytes, and the marker has no such
  limit: a note of 512 characters above U+FFFF is admitted and its line cannot be loaded
  (`CampaignMishaps.WideNoteRun`), and so with an attempt number of more than 3967 digits.
  `TimelineLines.LoadedIff` is the exact condition for loading and replaying together; ordinary
  markers always fit (`OrdinaryMarkerFits`).
* The marker takes no lock. Two overlapping begins are both admitted
  (`CampaignMishaps.OverlappingBeginsRun`), and a marker of any attempt that a later probe overtakes
  goes back in time (`CampaignMishaps.OvertakenMarkerRun`).
  `OverlappingMarkers.CrowdAcceptedIff` says exactly which logs of overlapping invocations survive.
* The protocol name reader accepts a last name that runs past the declared list
  (`ClientHelloShape.OverrunningNameAccepted`; `NameListExact` is the exact condition).
* With two key_share extensions the locator uses the first and the shape lists the last
  (`ClientHelloAgreement.OraclesDiffer`; `OraclesAgree` has the exact condition).
* mKCP numbers repeat after 2^32 segments. A kept copy of the first is then read again
  (`KcpWrap.NumbersRepeatAfterWrap`; `ReliableExactlyBelowWrap` is the exact bound), and one segment
  later a kept acknowledgement drops a byte that was never sent (`StaleAckLosesSegment`).
* The relay's counters lose sight of one datagram when a failing send or a second client stops it
  (`DelayRelay.FailedSendLoses`, `SecondClientLoses`), and of none when receiving fails.
  `DelayRelay.ConservedIff` is the exact condition, on the state before each turn.
* An empty data segment at the end of a datagram does not parse (`KcpSegments.SegmentExact`).

The release gate's limit on notes is a bound no campaign can reach: the counts of one scenario would
need more than 4018 digits together (`ReleaseGate.AcceptedReportPassesIff`).

## Model

| member | source | states |
|---|---|---|
| ReportBuilder.BuildScenarios | scripts/build-apple-device-report.py:183-377 | the mutable replay returns, for every list of events, the scenario list or the first refusal that the event-by-event specification gives |
| ReportBuilder.Replayer.constructor | scripts/build-apple-device-report.py:192-205 | the replay starts with no starts or ends, no attempts, zero counts for exactly the required scenarios and no earlier time |
| ReportBuilder.Replayer.OnCampaignEvent | scripts/build-apple-device-report.py:209-234 | build start, campaign start and campaign end are accepted only in that order with the fields and metadata they must match, and change only the campaign flags |
| ReportBuilder.Replayer.CheckTiming | scripts/build-apple-device-report.py:262-271 | elapsed seconds are whole, do not go back, stay within the duration and match the timestamp to two seconds |
| ReportBuilder.Replayer.OnProbe | scripts/build-apple-device-report.py:239-271 | a probe updates the latest index of its kind and result, and a pass needs a larger sequence number |
| ReportBuilder.Replayer.OnPhase | scripts/build-apple-device-report.py:288-345 | one marker moves one attempt through begin, note, passed or failed, with the probe evidence a pass needs |
| ReportBuilder.Replayer.OnScenario | scripts/build-apple-device-report.py:273-345 | a scenario marker is refused outside the running campaign, for an unknown scenario, bad attempt, bad time or unprintable notes, and otherwise handled as its phase says |
| ReportBuilder.Replayer.OnEvent | scripts/build-apple-device-report.py:207-351 | one turn of the loop, including the check that timestamps never go back |
| ReportBuilder.Collect | scripts/build-apple-device-report.py:359-377 | the report lists every required scenario in policy order with its counts, or refuses the first with too few passes |
| ReportBuilder.ErrorPersists | scripts/build-apple-device-report.py:207-351 | once a prefix of a log is refused, the whole log is refused for the same reason |
| TransitionMarker.FindAttempt | scripts/mark-apple-device-transition.py:47-85 | the scan of the whole log returns the attempt state, begin index and latest probe indices of the rescan specification, and raises exactly where it does, a probe kind that is an array or object included |
| TransitionMarker.RaisePersists | scripts/mark-apple-device-transition.py:54-79 | a log whose prefix raises raises |
| MarkerSimulation.SimulationStep | scripts/mark-apple-device-transition.py:54-79 | every event the builder accepts advances the marker scan of every attempt to the projection of the builder state |
| MarkerSimulation.RescanSimulatesReplay | scripts/mark-apple-device-transition.py:47-85 | on every log the builder has accepted the full rescan does not raise and returns the builder's state, begin index and probe indices for every scenario and attempt |
| MarkerSimulation.AdmissionAgrees | scripts/mark-apple-device-transition.py:135-175 | the marker's guards admit a phase exactly when the builder's attempt-state and evidence checks accept that phase of that attempt next |
| AcceptedTimelines.PrefixAccepted | scripts/build-apple-device-report.py:207-351 | every prefix of an accepted log is accepted, and each event is the step from one to the next |
| AcceptedTimelines.AcceptedShape | scripts/build-apple-device-report.py:207-353 | an accepted timeline is build start, campaign start, probes and markers, then a passing campaign end that matches the metadata, and nothing else |
| AcceptedTimelines.ReplayIndexed | scripts/build-apple-device-report.py:245-261 | in every reachable state the stored indices are the latest passed and failed probe of each kind and the begin marker of each attempt |
| AcceptedTimelines.PassedAttemptHasEvidence | scripts/build-apple-device-report.py:299-343 | a counted pass has its begin before it and, for both kinds, a passing probe in between; for an outage scenario a failed probe, then a passing one that is the last of its kind before the marker |
| AcceptedTimelines.ReplayCounted | scripts/build-apple-device-report.py:291-343 | begins equal passes plus failures plus attempts still running, for every scenario and every prefix |
| AcceptedTimelines.ReportCountsMarkers | scripts/build-apple-device-report.py:353-377 | the report lists every required scenario with exactly its passed and failed markers, which add up to its begins, and enough passes |
| CampaignRun.StampMatchesElapsed | scripts/mark-apple-device-transition.py:187-196 | from a whole-second start the whole-second timestamp is the start plus the recorded elapsed seconds, whether elapsed is taken from the clock or from the timestamp |
| CampaignRun.ProbeAccepted | scripts/run-apple-device-campaign.py:763-794 | a probe record of a clean run is accepted and keeps the link between the runner and the builder |
| CampaignRun.MarkerAccepted | scripts/mark-apple-device-transition.py:125-196 | a marker the tool appends to an accepted log of a running campaign is accepted by the builder's loop, unless it is late or its note is unprintable |
| CampaignRun.FinishAccepted | scripts/run-apple-device-campaign.py:863-877 | the end record, at the start plus the final duration, is accepted whenever the campaign is running and no event so far is later than that |
| CampaignRun.CleanRunAccepted | scripts/run-apple-device-campaign.py:720-877 | every interleaving of start, probes, markers and end with a clean log is accepted by the builder |
| CampaignRun.AcceptedIsClean | scripts/build-apple-device-report.py:207-351 | every accepted log is clean: nothing later than the duration, rising probe numbers, printable notes, nothing after the end, no crash record |
| CampaignRun.RunAcceptedIffClean | scripts/build-apple-device-report.py:207-351 | over every run of runner, markers, crash and clean-up, the builder's loop accepts the log if and only if it is clean |
| CampaignOutcomes.NoneRunningIffSettled | scripts/build-apple-device-report.py:355-357 | no attempt is left running exactly when begins equal passes plus failures for every required scenario |
| CampaignOutcomes.ReportIffComplete | scripts/build-apple-device-report.py:353-377 | over every run a report is produced if and only if the log is clean, the campaign finished, every attempt is settled and every scenario has its passes |
| CampaignOutcomes.LateMarkerSpoilsLog | scripts/mark-apple-device-transition.py:119-178 | a marker admitted after the campaign end, while the state file is still there, makes every later replay refuse the log |
| CampaignOutcomes.RacingBegins | scripts/mark-apple-device-transition.py:126-196 | two begins of one attempt that both read the log before either appends are both admitted, and the log is refused |
| CampaignOutcomes.UnprintableNoteSpoilsLog | scripts/mark-apple-device-transition.py:112-117 | a note the marker allows and the builder does not print spoils the log; the delete character is one |
| OverlappingMarkers.CrowdAcceptedIff | scripts/mark-apple-device-transition.py:125-196 | over every run in which any number of invocations overlap in any way, the builder's loop accepts the log if and only if it is clean, no record was overtaken by one with a larger elapsed time, and the scan of the log before each marker still admits it |
| OverlappingMarkers.StaleMarkerAcceptedIff | scripts/build-apple-device-report.py:273-351 | a marker admitted on a prefix of any accepted log and appended at its end is accepted if and only if the campaign still runs, its note is printable, its times fit and do not go back, and the whole log still admits it |
| OverlappingMarkers.CrowdReportIff | scripts/build-apple-device-report.py:353-377 | over every run with overlapping invocations the scenario list is produced if and only if the log is clean, in order and readmitted, the campaign finished, every attempt is settled and every scenario has its passes |
| OverlappingMarkers.ReplayKeepsElapsed | scripts/build-apple-device-report.py:262-282 | in every reachable state the stored elapsed time is the largest in the log, and accepted logs are in its order |
| OverlappingMarkers.ReplayReadmits | scripts/build-apple-device-report.py:288-345 | every marker of an accepted log is admitted by the marker's own scan of the log before it |
| TimelineLines.LoadTimeline | scripts/build-apple-device-report.py:158-180 | the loading loop accepts the records of the tools exactly when every line has at most 4096 bytes |
| TimelineLines.MarkerLineLength | scripts/mark-apple-device-transition.py:188-203 | the line of a marker has 129 bytes, those of its escaped note, its attempt and elapsed digits, its phase and its scenario |
| TimelineLines.RunWritten | scripts/run-apple-device-campaign.py:724-794 | every record in the log of a run is one of the six the tools write |
| TimelineLines.LoadedIff | scripts/build-apple-device-report.py:158-180 | over every run with overlapping invocations the log loads and the loop accepts it if and only if it is clean, in order and readmitted, and every marker and passing probe fits its line |
| TimelineLines.ReportProducedIff | scripts/build-apple-device-report.py:158-377 | loading, the loop and the checks after it together produce the list if and only if in addition the campaign finished, every attempt is settled and every scenario has its passes |
| TimelineLines.OrdinaryMarkerFits | scripts/mark-apple-device-transition.py:112-117 | a marker whose note has no character above U+FFFF fits, unless its attempt has more than 700 digits |
| TimelineLines.LongAttemptDoesNotFit | scripts/mark-apple-device-transition.py:110-111 | no marker with an attempt of more than 3967 digits fits |
| CampaignMishaps.LateMarkerRun | scripts/mark-apple-device-transition.py:119-178 | a run, for every policy and begin request: the campaign ends and its log is accepted, a marker is admitted before the state file is removed, and the log is refused |
| CampaignMishaps.DeleteNoteRun | scripts/mark-apple-device-transition.py:112-117 | a run, for every policy: a begin marker whose note is the delete character is admitted and the log is refused |
| CampaignMishaps.WideNoteRun | scripts/build-apple-device-report.py:158-166 | a run, for every policy: a begin marker with 512 characters above U+FFFF is admitted, the log is clean and the loop accepts it, and its line is too long to load |
| CampaignMishaps.OverlappingBeginsRun | scripts/mark-apple-device-transition.py:126-196 | a run in which two invocations scan before either appends, both append the same begin, and the log is refused |
| CampaignMishaps.OvertakenMarkerRun | scripts/mark-apple-device-transition.py:187-196 | a run in which a probe is logged between a marker's clock reading and its append, and the log is refused |
| CampaignMishaps.SettingExists | scripts/mark-apple-device-transition.py:97-117 | a policy and a begin request for those runs exist, with any notes the marker allows |
| MobileEvidence.Observe | scripts/check-mobile-device-evidence.py:290-302 | the table is filled exactly when every element is well formed and no id repeats, and holds each id's attempts |
| MobileEvidence.ValidateScenarios | scripts/check-mobile-device-evidence.py:286-314 | the list passes if and only if it is well formed, names exactly the required scenarios and reports enough attempts of each |
| MobileEvidence.ValidateSeries | scripts/check-mobile-device-evidence.py:209-261 | the sample loop and the checks after it accept exactly the series the specification describes |
| MobileEvidence.EveryInstantCovered | scripts/check-mobile-device-evidence.py:226-254 | every instant of an accepted soak lies within one sampling interval of a sample |
| MobileEvidence.GenerationsHaveNoGaps | scripts/check-mobile-device-evidence.py:227-235 | in every prefix of an accepted series the runtime generations are exactly 1 to the last one |
| MobileEvidence.CountersRiseWithinGeneration | scripts/check-mobile-device-evidence.py:230-248 | between any two samples of one generation, neighbours or not, time and both packet counters do not go back |
| SampleGate.ValidateSamples | scripts/check-mobile-device-evidence.py:189-283 | the whole check accepts if and only if the soak is long enough, the interval short enough, there are enough samples, the series keeps its rules, and memory and threads do not grow beyond the limits between the medians of its two ends |
| SampleGate.AcceptedIsDense | scripts/check-mobile-device-evidence.py:194-207 | an accepted series has at least 325 samples, so the two windows of five do not overlap |
| SampleGate.MemorySettles | scripts/check-mobile-device-evidence.py:263-275 | in an accepted series at least three of the last five samples are within the limit that the median of the first five sets |
| ReleaseGate.AcceptedReportPassesIff | scripts/build-apple-device-report.py:359-377 | the scenario list of an accepted timeline passes the release gate if and only if every pair of counts has at most 4018 digits together |
| ReleaseGate.AcceptedReportPassesGate | scripts/check-mobile-device-evidence.py:286-314 | every accepted timeline of fewer than 10^2009 events passes the release gate |
| Wire.U16Exact | tools/reality-oracle/clienthello_fixture.go:371-377 | reading a 16-bit field succeeds exactly on its encoding followed by the rest |
| Wire.EntryExact | tools/reality-oracle/clienthello_fixture.go:227-243 | reading a typed, length-prefixed entry succeeds exactly on its encoding followed by the rest |
| Wire.EntriesTile | tools/reality-oracle/clienthello_fixture.go:227-258 | a block reads as a list of entries if and only if it is their encodings end to end, with no gap and no overrun |
| Wire.EntryInPlace | tools/reality-oracle/clienthello_fixture.go:236-243 | the data of each entry sits in the block at the length of the entries before it plus four |
| ClientHello.ParseInvertsEncode | tools/reality-oracle/clienthello_fixture.go:168-258 | the bytes parse to a ClientHello if and only if it is within the length bounds and they are its encoding (section 4.1.2 of RFC 8446) |
| ClientHello.ExtensionInPlace | tools/reality-oracle/clienthello_fixture.go:236-243 | extension data sits at its computed absolute offset in the message |
| ClientHello.SharesExact | tools/reality-oracle/clienthello_fixture.go:266-328 | a key_share extension reads as a list of shares exactly when it is their length-prefixed encoding (section 4.2.8 of RFC 8446) |
| KeyShareLocator.LocatedKeyInPlace | tools/reality-oracle/clienthello_fixture.go:168-334 | a located offset holds exactly the requested 32 bytes of the message, inside a share of the returned group in the first key_share extension, and the share is the first that carries the key; every further key_share extension is well formed, well sized and carries the key too |
| KeyShareLocator.PresentKeyIsLocated | tools/reality-oracle/clienthello_fixture.go:168-334 | in every well-formed ClientHello a key is located if and only if there is a key_share extension and every one has well-sized shares and carries the key, and then at its computed offset in the first |
| KeyShareLocator.FirstCarrier | tools/reality-oracle/clienthello_fixture.go:299-324 | the chosen share is the first that carries the key |
| ClientHelloShape.PairsExact | tools/reality-oracle/clienthello_shape.go:722-744 | a list of 16-bit values is read back exactly from its encoding |
| ClientHelloShape.NameListExact | tools/reality-oracle/clienthello_shape.go:782-805 | the protocol name reader accepts exactly the lists whose declared length ends inside or at the end of the last name |
| ClientHelloShape.OverrunningNameAccepted | tools/reality-oracle/clienthello_shape.go:782-805 | a name that runs past the declared end of the list is accepted |
| ClientHelloShape.PayloadReadBack | tools/reality-oracle/clienthello_shape.go:500-601 | each known extension payload, encoded, is read back into its place of the shape |
| ClientHelloShape.ShapeRoundTrip | tools/reality-oracle/clienthello_shape.go:395-498 | the shape of an encoded ClientHello has its version, cipher suites, compression methods, extension order, lengths and decoded lists |
| ClientHelloParsers.ByteCursor.constructor | tools/reality-oracle/clienthello_fixture.go:336-340 | a cursor starts before the first byte with its base offset |
| ClientHelloParsers.ByteCursor.Take | tools/reality-oracle/clienthello_fixture.go:353-361 | taking bytes advances the cursor past exactly them, or fails without a change |
| ClientHelloParsers.ByteCursor.ReadU8 | tools/reality-oracle/clienthello_fixture.go:363-369 | reads one byte off the front or fails |
| ClientHelloParsers.ByteCursor.ReadU16 | tools/reality-oracle/clienthello_fixture.go:371-377 | reads a 16-bit number off the front or fails |
| ClientHelloParsers.ByteCursor.ReadU24 | tools/reality-oracle/clienthello_fixture.go:379-385 | reads a 24-bit number off the front or fails |
| ClientHelloParsers.ByteCursor.ReadU16List | tools/reality-oracle/clienthello_shape.go:722-744 | the loop reads the list of 16-bit values of the specification |
| ClientHelloParsers.ByteCursor.ReadShortU16List | tools/reality-oracle/clienthello_shape.go:758-780 | the same with a one-byte length |
| ClientHelloParsers.ByteCursor.ReadProtocolNameList | tools/reality-oracle/clienthello_shape.go:782-805 | the loop reads the names of the specification, including one that overruns |
| ClientHelloParsers.ReadFrame | tools/reality-oracle/clienthello_fixture.go:173-225 | the common front of both parsers, with both length checks, equals the specification |
| ClientHelloParsers.LocateInKeyShare | tools/reality-oracle/clienthello_fixture.go:266-334 | the loop over shares finds the first carrier and its absolute offset through the rebased cursor, and refuses ill-sized shares |
| ClientHelloParsers.LocateKeyShare | tools/reality-oracle/clienthello_fixture.go:168-264 | the whole cursor parser equals the locator specification on every byte string |
| ClientHelloParsers.ParseKeyShares | tools/reality-oracle/clienthello_shape.go:603-636 | the loop lists groups and lengths of exactly the shares of the extension |
| ClientHelloParsers.ParseExtension | tools/reality-oracle/clienthello_shape.go:500-601 | the extension switch equals its specification for every type and payload |
| ClientHelloParsers.ParseClientHelloShape | tools/reality-oracle/clienthello_shape.go:395-498 | the whole cursor parser equals the shape specification on every byte string |
| ClientHelloAgreement.ShapeListsLastShares | tools/reality-oracle/clienthello_shape.go:489-491 | the shape keeps the shares of the last key_share extension, and all of them are well formed |
| ClientHelloAgreement.OraclesAgree | tools/reality-oracle/clienthello_fixture.go:168-264 | on every message both parsers accept they see the same extensions, and they list the same shares if and only if the last key_share extension repeats the groups and lengths of the first |
| ClientHelloAgreement.OraclesDiffer | tools/reality-oracle/clienthello_fixture.go:244-254 | for every key a ClientHello that both parsers accept and on which the shares they list differ |
| KcpMachine.SendingWorker.constructor | crates/xray-transport/src/kcp/engine.rs:134-146 | a new sender has an empty window and starts at number 0 |
| KcpMachine.SendingWorker.Clear | crates/xray-transport/src/kcp/engine.rs:154-162 | the loop drops the front of the window while its numbers are below the given one |
| KcpMachine.SendingWorker.OnReceivingNext | crates/xray-transport/src/kcp/engine.rs:175-178 | a cumulative acknowledgement clears the window and updates the first unacknowledged number |
| KcpMachine.SendingWorker.RemoveNumber | crates/xray-transport/src/kcp/engine.rs:180-194 | the search removes the segment of that number and no other, and says whether it did |
| KcpMachine.SendingWorker.OnAckNumber | crates/xray-transport/src/kcp/engine.rs:196-208 | a number in range is removed and the first unacknowledged number follows |
| KcpMachine.SendingWorker.OnAckSegment | crates/xray-transport/src/kcp/engine.rs:221-254 | an acknowledgement segment applies its cumulative number and then each listed number, unless closed |
| KcpMachine.SendingWorker.PushPayload | crates/xray-transport/src/kcp/engine.rs:256-269 | a payload is queued under the next number unless the sender is closed or full |
| KcpMachine.SendingWorker.WriteChunks | crates/xray-transport/src/kcp/engine.rs:571-582 | data is queued chunk by chunk until the window refuses one, and the taken chunks are returned |
| KcpMachine.ReceivingWorker.constructor | crates/xray-transport/src/kcp/engine.rs:380-395 | a new receiver expects number 0 and holds nothing |
| KcpMachine.ReceivingWorker.ClearAcknowledged | crates/xray-transport/src/kcp/engine.rs:314-331 | the compaction keeps exactly the numbers not below the given one, in order |
| KcpMachine.ReceivingWorker.OnData | crates/xray-transport/src/kcp/engine.rs:401-408 | a data segment within the window is recorded once and acknowledged, one outside it is ignored |
| KcpMachine.ReceivingWorker.DrainWindow | crates/xray-transport/src/kcp/engine.rs:416-421 | the loop moves everything in order from the window to the bytes left over |
| KcpMachine.ReceivingWorker.TakeBytes | crates/xray-transport/src/kcp/engine.rs:415-427 | a read returns the front of what is in order |
| KcpMachine.Machine.constructor | crates/xray-transport/src/kcp/engine.rs:470-493 | a new engine is active with fresh workers |
| KcpMachine.Machine.OnSegment | crates/xray-transport/src/kcp/engine.rs:609-654 | one segment of a datagram changes phase, sender and receiver as specified |
| KcpMachine.Machine.ReadBytes | crates/xray-transport/src/kcp/engine.rs:550-567 | a read returns in-order bytes, nothing yet, or the end of the stream |
| KcpMachine.Machine.WriteBytes | crates/xray-transport/src/kcp/engine.rs:571-592 | a write queues chunks while active, and says whether one that took nothing met a closed end or a full window |
| KcpMachine.Machine.FlushAll | crates/xray-transport/src/kcp/engine.rs:770-801 | a flush changes the phase as its timers say and sends the acknowledgements, data and pings of the specification |
| KcpReliability.RemoveKeeps | crates/xray-transport/src/kcp/engine.rs:180-194 | on an ordered window the early-stopping search removes exactly the segment of that number |
| KcpReliability.ClearBelowKeeps | crates/xray-transport/src/kcp/engine.rs:154-162 | on an ordered window clearing from the front removes exactly the numbers below |
| KcpReliability.ChunksArePrefix | crates/xray-transport/src/kcp/engine.rs:571-582 | the chunks taken from a write are a prefix of its data |
| KcpReliability.ChunksNonempty | crates/xray-transport/src/kcp/engine.rs:572-581 | no chunk is empty or longer than the segment size |
| KcpReliability.RunKeepsInv | crates/xray-transport/src/kcp/engine.rs:469-801 | the invariant tying both windows, both histories and every segment in flight holds after every run of two engines over a network that loses, repeats and reorders |
| KcpReliability.ReadsArePrefixOfWrites | crates/xray-transport/src/kcp/engine.rs:550-592 | what either side has read is a prefix of what the other has written, in every run with fewer than 2^32 segments a side |
| KcpReliability.NothingIsLost | crates/xray-transport/src/kcp/engine.rs:154-208 | a segment written and not discarded by a close is still in the sender's window or has reached the receiver |
| KcpReliability.OrderlyCloseIsComplete | crates/xray-transport/src/kcp/engine.rs:770-779 | once the sender's window has emptied without a discard, the receiver holds or has read every byte written |
| KcpWrap.NumbersRepeatAfterWrap | crates/xray-transport/src/kcp/engine.rs:401-427 | a run of exactly 2^32 segments, for every configuration, in which a kept copy of the first segment is read again: the right end has read one byte more than was written, with nothing left to send and nothing discarded |
| KcpWrap.StaleAckLosesSegment | crates/xray-transport/src/kcp/engine.rs:154-178 | a run of 2^32 + 1 segments in which a kept acknowledgement clears the last one, which was never sent: the byte is gone with nothing discarded |
| KcpWrap.ReliableExactlyBelowWrap | crates/xray-transport/src/kcp/engine.rs:256-269 | in-order delivery, completeness and the accounting of numbers hold of every run of at most a given number of segments an end if and only if that number is below 2^32 |
| KcpWrap.Removed | crates/xray-transport/src/kcp/engine.rs:196-208 | at the wrap the cumulative number no longer clears the last segment and its listed number does |
| KcpPhases.PhasesOnlyAdvance | crates/xray-transport/src/kcp/engine.rs:514-654 | over every run an end never returns to a phase it has left, and stays terminated |
| KcpPhases.FewPhaseChanges | crates/xray-transport/src/kcp/engine.rs:514-654 | over every run an end changes phase at most four times |
| KcpSegments.SegmentExact | crates/xray-transport/src/kcp/segment.rs:187-254 | the reader takes a segment and a rest if and only if the bytes are its encoding and the rest, and the segment is not an empty data segment at the end |
| KcpSegments.CollectSegments | crates/xray-transport/src/kcp/segment.rs:175-185 | the loop collects the segments of a datagram up to the first that does not parse |
| KcpSegments.DatagramReadBack | crates/xray-transport/src/kcp/segment.rs:107-185 | every sequence of segments encoded into one datagram is read back, all of it unless the last is an empty data segment, which alone is dropped |
| DelayRelay.RelayConserves | scripts/run-v07-delayed-protocol.py:49-84 | at every loop head received equals forwarded plus dropped plus queued plus the one datagram in hand when a failing send or a second client stopped the relay; queued bytes are the sum over the queue and within 32 MiB; the peak is their historical maximum |
| DelayRelay.StopsExactlyWhen | scripts/run-v07-delayed-protocol.py:53-84 | the relay stops on a cause if and only if that is the cause of the first turn that has more entries due than sends succeed, a datagram from a second client, or a receive that raises anything but a timeout |
| DelayRelay.ConservedIff | scripts/run-v07-delayed-protocol.py:53-84 | the counters and the queue account for every received datagram if and only if no failing send and no second client was first to stop the relay |
| DelayRelay.FailedSendLoses | scripts/run-v07-delayed-protocol.py:55-59 | for every setting and client a run whose only datagram is lost to a failing send |
| DelayRelay.SecondClientLoses | scripts/run-v07-delayed-protocol.py:65-71 | a run that loses the datagram of a second client |
| DelayRelay.FailedReceiveLosesNothing | scripts/run-v07-delayed-protocol.py:61-64 | a run that a failing receive stops with nothing lost |
| DelayRelay.LeavesInAdmissionOrder | scripts/run-v07-delayed-protocol.py:55-81 | in each direction what has been sent is a prefix of what was admitted, in order, equal due times included, and together with what is queued all of it unless a send failed |
| DelayRelay.DueTimesLeaveRoom | scripts/run-v07-delayed-protocol.py:77-80 | the later of two due times of a direction exceeds the earlier by at least the bytes admitted in between, and the later's own, over the rate |
| DelayRelay.NothingSentEarly | scripts/run-v07-delayed-protocol.py:54-59 | nothing is sent before its arrival plus its serialization time plus the delay |
| DelayRelay.InsertSorts | scripts/run-v07-delayed-protocol.py:80 | the queue stays ordered by due time and then sequence |
| DelayRelay.Relay.constructor | scripts/run-v07-delayed-protocol.py:50-51 | the relay starts idle |
| DelayRelay.Relay.SendLoop | scripts/run-v07-delayed-protocol.py:55-59 | the loop sends the due entries in order until one is not due or a send fails |
| DelayRelay.Relay.Push | scripts/run-v07-delayed-protocol.py:80 | an entry takes its place in the order of the heap |
| DelayRelay.Relay.Receive | scripts/run-v07-delayed-protocol.py:65-82 | a datagram is refused, dropped or admitted with its due time and counters |
| DelayRelay.Relay.Serve | scripts/run-v07-delayed-protocol.py:49-84 | the mutable loop equals the run of the specification, turn by turn |
| FragmentConn.WireIsToggledStream | tools/vless-encryption-oracle/main.go:125-160 | under every split into writes and every pattern of partial writes with a caller that resumes, the wire is a prefix of the stream with only the byte at the flip offset toggled; in truncate mode it is an unchanged prefix within the cap |
| FragmentConn.WriteReportsTruncation | tools/vless-encryption-oracle/main.go:127-159 | a write past the cap always reports an error, a reported end of file means the cap was reached exactly, and a write without error took everything |
| FragmentConn.NothingAfterCut | tools/vless-encryption-oracle/main.go:128-138 | nothing reaches the wire after the truncating close |
| FragmentConn.RunCorrupts | tools/vless-encryption-oracle/main.go:125-160 | over every sequence of calls the wire is the acknowledged bytes with the flip toggled |
| FragmentConn.Connection.constructor | tools/vless-encryption-oracle/main.go:109-114 | a connection starts with nothing read or written |
| FragmentConn.Connection.ReadSome | tools/vless-encryption-oracle/main.go:116-123 | a read returns at most 13 bytes off the front and counts them |
| FragmentConn.Connection.WriteAll | tools/vless-encryption-oracle/main.go:125-160 | the mutable write equals the specification for every buffer and every behaviour below it |
| FragmentConn.Connection.SendFragments | tools/vless-encryption-oracle/main.go:142-155 | the loop sends the buffer in pieces of at most 17 bytes and returns what was taken and why it stopped |
| PublicationJson.EqualStrict | scripts/check-benchmark-publication.py:399-415 | the worklist returns true if and only if the two documents mean the same, with identical types at every node and regardless of field order |
| PublicationJson.Unfold | scripts/check-benchmark-publication.py:402-414 | one popped pair differs, or agrees exactly when the pushed pairs do, and those are smaller |
| PublicationJson.FieldsAgree | scripts/check-benchmark-publication.py:405-408 | two objects with the same names mean the same exactly when the pairs of their fields do |
| PublicationJson.WithinLimits | scripts/check-benchmark-publication.py:249-262 | the worklist accepts if and only if the document has at most 250000 nodes and containers nest at most 64 deep |
| OrderStatistics.OrderStatistic | scripts/check-benchmark-publication.py:1399-1408 | position k of the sorted values is at most x exactly when more than k of the values are |
| OrderStatistics.SummaryMeaning | scripts/check-benchmark-publication.py:1399-1409 | least value, median and percentile as counts of values, without sorting, for either parity |
| OrderStatistics.SummaryUnique | scripts/check-benchmark-publication.py:1399-1409 | no other summary has that meaning |
| OrderStatistics.SummaryPermuted | scripts/check-benchmark-publication.py:1399-1409 | a summary does not depend on the order of the values |
| OrderStatistics.SummaryAccepted | scripts/check-benchmark-publication.py:1206-1213 | every summary of 128-bit values passes the metric validator |
| OrderStatistics.SummaryDominated | scripts/check-benchmark-publication.py:1399-1409 | values that are pointwise no larger have a summary that is no larger in each field |
| OrderStatistics.AggregateOrdered | scripts/check-benchmark-publication.py:1220-1229 | ordered distributions aggregate to ones ordered in each of their own least value, median and percentile, which the validator accepts |
| Invocation.ExpectedFlags | scripts/check-benchmark-publication.py:1046-1086 | the list holds exactly the flags the scenario wants, in the one canonical order |
| Invocation.ParseInvocation | scripts/check-benchmark-publication.py:1089-1112 | the loop accepts if and only if the arguments are run followed by the canonical flags with plain values, and returns those values; every refusal has the reason of the specification |
| Invocation.ParseIffPrinted | scripts/check-benchmark-publication.py:1089-1112 | parsing and canonical printing undo each other, for every list of distinct flags |
| Invocation.CanonicalUnique | scripts/check-benchmark-publication.py:1046-1086 | a scenario has one canonical list |
| InternetChecksum.Fold | scripts/check-wireguard-redirect-reuse.py:28-29 | folding ends at the one number up to 65535 that is equal to the total modulo 65535 and zero only for zero |
| InternetChecksum.ComputeChecksum | scripts/check-wireguard-redirect-reuse.py:24-30 | the method computes the complement of the folded sum of the padded words |
| InternetChecksum.FieldMakesZero | scripts/check-wireguard-redirect-reuse.py:24-37 | data with its checksum, or 65535 for a zero checksum, in an even-offset field sums to a zero checksum |
| InternetChecksum.HeaderVerifies | scripts/check-wireguard-redirect-reuse.py:38-40 | the emitted IPv4 header sums to zero |
| InternetChecksum.DatagramVerifies | scripts/check-wireguard-redirect-reuse.py:33-37 | pseudo-header and UDP datagram sum to zero whatever the payload's parity |
| InternetChecksum.ReusePacketVerifies | scripts/check-wireguard-redirect-reuse.py:33-40 | a packet is built exactly when ports and length fit; both of its sums are zero and its UDP checksum field is not |
| InternetChecksum.PrototypePacket | tools/wireguard-adapter-prototype/main.rs:218-240 | the in-place builder emits the same IPv4 header as the other builder for the same addresses and length, and that header sums to zero |
| InternetChecksum.SealHeader | tools/wireguard-adapter-prototype/main.rs:227-234 | the header checksum is written over its two bytes and nothing else |
| ProbeDns.FindQuestionEnd | scripts/run-apple-device-probe-server.py:40-59 | the loop over labels equals the walk of the specification, refusals included |
| ProbeDns.EndIffQuestion | scripts/run-apple-device-probe-server.py:40-59 | the end is found exactly when one name of labels of 1 to 63 bytes, and four bytes, lie between the header and it (section 4.1.2 of RFC 1035) |
| ProbeDns.RespondersAgree | scripts/run-v08-android-protocol-fixture.py:32-40 | for every byte string the label-walking responder and the fixed-offset oracle both refuse or return identical bytes |
| ProbeDns.MatchedWalk | scripts/run-apple-device-probe-server.py:40-59 | the walk over a query of the matched form ends at its last byte |
| HoldServer.EveryStateSafe | scripts/run-apple-device-probe-server.py:185-244 | in every reachable state the cap is kept, an authenticated client has sent exactly the expected line under any chunking, and any other holds a part of a line of at most 128 bytes |
| HoldServer.PeakIsMostHeld | scripts/run-apple-device-probe-server.py:233-238 | the peak counter is the historical maximum of clients authenticated at once |
| HoldServer.PeakAtMostAccepted | scripts/run-apple-device-probe-server.py:233-238 | held clients are at most the peak, and the peak at most the clients accepted |
| HoldServer.ConnectionsConserved | scripts/run-apple-device-probe-server.py:163-244 | every connection is held, was rejected and counted, or was closed by its peer |
| HoldServer.SweepLeavesRecent | scripts/run-apple-device-probe-server.py:241-244 | after a sweep every client left was heard from within the idle time |
| HoldServer.LineAuthenticates | scripts/run-apple-device-probe-server.py:219-234 | a client whose pieces make up the expected line is accepted with the piece that completes it, unless the ready line cannot be sent whole |
| HoldServer.LoadServer.constructor | scripts/run-apple-device-probe-server.py:159-163 | the server starts with no clients and zero counters |
| HoldServer.LoadServer.Reject | scripts/run-apple-device-probe-server.py:165-169 | a rejected client is counted and removed |
| HoldServer.LoadServer.OnConnection | scripts/run-apple-device-probe-server.py:185-204 | a connection is counted and closed at the cap, and otherwise enters the table with an empty request |
| HoldServer.LoadServer.OnReadable | scripts/run-apple-device-probe-server.py:206-239 | a chunk closes, rejects, extends or authenticates the client as specified, with the reason reported |
| HoldServer.LoadServer.SweepIdle | scripts/run-apple-device-probe-server.py:241-244 | the sweep rejects exactly the clients whose deadline has passed, in whatever order it visits them |

## Left out

- Sockets, processes, files, device tools, cryptography and uTLS calls: inputs of the models (events, chunks, partial writes, which timers ran out) or absent.
- JSON parsing of the timeline and the well-formedness of lines nobody but the tools wrote, campaign metadata, artifact checks and report fields other than the scenario list.
- Word texts of the timeline: the words the tools compare with are an enumeration and timestamps are instants in microseconds, so two spellings of one instant are not told apart; no scenario of a policy is named by such a word.
- `str.isprintable` beyond Latin-1: characters above 0xFF count as printable.
- The marker's append loop and the runner's `write_all`: an appended record is one step.
- CampaignRun.FinishAccepted: takes the campaign's final duration as an input, since the code mixes device and host clocks there.
- CampaignRun.RunAcceptedIffClean: a marker's read, check and append are one step there; OverlappingMarkers.CrowdAcceptedIff lifts that.
- CampaignRun.MarkerAccepted: about the builder's loop; the limit on lines is in TimelineLines.LoadedIff.
- CampaignOutcomes.ReportIffComplete: markers are one step there; OverlappingMarkers.CrowdReportIff and TimelineLines.ReportProducedIff lift that.
- TimelineLines.LoadedIff: the soak has fewer than 10^12 seconds, as any two instants of Python's datetime have; lone surrogates in a note and Python's limit of 4300 digits on integers are not modelled.
- ReportBuilder.BuildScenarios: a kind, result or phase that is an array or object makes the code raise a TypeError, which the model reports as the refusal of that field.
- MobileEvidence.ValidateSeries: the part of the check over the loop; it requires a series that is not empty, as the minimum number of samples does. SampleGate.ValidateSamples is the whole. Samples are typed records.
- SampleGate.ValidateSamples: samples are typed records, so the field-set and integer checks are outside; the minimum number of samples and the medians are exact reals, so floating-point rounding of those quotients is not modelled.
- ReleaseGate.AcceptedReportPassesGate: the bound on events is implied by AcceptedReportPassesIff, which has none.
- ClientHelloShape.ShapeRoundTrip: labels such as 0x0a0a and GREASE are values of a datatype, not their hexadecimal text.
- KcpReliability.ReadsArePrefixOfWrites: bounded to fewer than 2^32 segments a side; KcpWrap.ReliableExactlyBelowWrap shows that this bound is exact.
- KcpReliability.RunKeepsInv: the same bound, and congestion windows, round-trip times and retransmission times are not modelled; every choice of what to send when is covered instead.
- KcpMachine.SendingWorker.constructor: leaves out the congestion fields.
- KcpMachine.SendingWorker.OnReceivingNext: leaves out the flag that asks for a ping.
- KcpMachine.SendingWorker.OnAckNumber: leaves out that flag and the returned one, which only steers retransmission.
- KcpMachine.SendingWorker.RemoveNumber: leaves out the in-flight counter, which only steers congestion.
- KcpMachine.SendingWorker.OnAckSegment: leaves out the remote window, fast retransmission and round-trip updates, which only steer when segments are sent.
- KcpMachine.ReceivingWorker.constructor: leaves out acknowledgement timestamps and flush times.
- KcpMachine.ReceivingWorker.ClearAcknowledged: leaves out the timestamps, flush times and dirty flag beside each number.
- KcpMachine.Machine.constructor: leaves out timers and round-trip state.
- KcpMachine.Machine.OnSegment: leaves out the conversation check, wake-up signals and the peer's timeout.
- KcpMachine.Machine.FlushAll: which timers ran out, which segments are due and whether a ping is due are inputs.
- KcpMachine.Machine.ReadBytes: leaves out the wake-up signal.
- KcpMachine.Machine.WriteBytes: leaves out the wake-up signal.
- KcpSegments.SegmentExact: the codec's segments keep timestamps, windows and conversation numbers that the engine model drops; the conversation check of a datagram is not modelled.
- DelayRelay.Relay.Push: the heap is modelled by its order, a queue sorted by due time and sequence; times and the rate are reals.
- FragmentConn.Connection.ReadSome: the error of the connection below is not modelled.
- PublicationJson.EqualStrict: a float is a real, so negative zero and rounding are not modelled; the parser already rejects NaN and the infinities.
- OrderStatistics.AggregateOrdered: the setup aggregate is the same operation on five timings and is not repeated.
- Invocation.ParseInvocation: known flags are an enumeration; any other text is told apart only by whether it starts with two dashes.
- InternetChecksum.ReusePacketVerifies: the host is already four bytes; negative ports are not modelled.
- HoldServer.LoadServer.OnReadable: clients are values of a table keyed by descriptor, so sharing of a client object between table and selector is not modelled, nor is a socket error that ends the server.
- The rest of the Rust crates, the release promotion checks, fixture generators, benchmark collectors, the website and the Swift package.
