# Verified model of the MediaTek hardware services

The project models the parts of the repository that keep state or build bytes, and proves what they keep over
every input or every run:

- **Thermal helper** (`Thermal*.dfy`): severities with hysteresis, the cached and smoothed temperature, emulation
  through the graph of virtual sensors, notifications and polling deadlines. `ThermalHelper` is the class with the
  sensor table; the other modules hold the functions it is proved against and the theorems about runs, about what the
  formulas amount to (`ThermalFormula`), about single reads and rounds (`ThermalReads`, `ThermalRounds`), and about
  which readings an emulation reaches.
- **NAN messages** (`Nan*.dfy`): the TLV writer and reader over byte buffers, the request builders whose length is
  computed apart from what they write, nested values built in place, the receive loops, and under which type each
  field arrives (`NanCarries`).
- **Bluetooth HAL** (`Bt*.dfy`): the life cycle shared by any number of threads, the routing of internal commands,
  and the wake line.
- **Wi-Fi HAL tables** (`Tables`, `HandlerTable`, `CommandTable`): bounded arrays with deletion by shifting, keyed
  entries, and one reference per registered command.
- **Supplicant commands** (`P2pCommand`): print, dispatch, tokenize in place, parse.
- **USB mode switch** (`UsbModeSwitch`): the handshake between the role switch and the uevent thread.

Temperatures are reals with a separate NaN and times are integers in milliseconds. Bytes and the sixteen- and
thirty-two-bit integers are subset types, and wrap-around is written out where the code relies on it. Threads are
interleavings of steps at the grain of lock regions, and of single statements where the code takes no lock.
`dafny verify dfyconfig.toml` checks everything.

## Where the code falls short of its purpose

The statements below are proved with the exact condition under which the code does what it is for.

- With zero hysteresis, the configured default, a value that falls exactly onto a lower threshold is reported below
  that level and corrected by the next identical reading (`NextHotLower`, `RepeatIsStable`, `TieExample`).
- The length of a subscribe request counts a ranging request for every non-zero response, the writer only from the
  accept response on (`SubscribeReadsBack`, `SubscribeNeedsLeastAccept`).
- Octet 2 of a post-discovery attribute is laid out differently by sender and receiver (`DurationRecovered`).
- Map entries keep two bits of the duration and four of the map id (`FamRoundTrip`).
- A vendor callback that awaits two commands loses the first (`HandleInOrder`).
- With an idle timeout of zero the wake line never goes down (`ZeroTimeoutStaysUp`). The same happens when the
  firmware configuration, which takes no mutex, arms the timer while the first packet still holds the timeout it read
  before (`StepGuarded`, `OvertakenStaysUp`).
- An emulation is not announced to watched sensors behind an unwatched virtual sensor, although their readings follow
  it (`FlagsAllExactly`, `UnflaggedButChanged`).
- A vendor request on a key that is already registered removes the older handler (`BracketRestores`); a plain
  request for the vendor command leaves its handler behind (`RequestEvent`).
- A ranging request whose start fails removes whatever entry its id finds and releases its own command: when the id is
  outstanding twice, or a completion was dispatched to the request during its start, the accounting breaks and a dead
  command is released (`StartFailsOwned`, `CompletionOvertakesStart`).

## Model

| member | source | states |
|---|---|---|
| ThermalSeverity.GetSeverityFromThresholds | aidl/thermal/thermal-helper.cpp:690-729 | The one descending loop yields, for hot and for cold, the highest level reached, or on a fall the highest level not yet left, against two independent definitions of "highest" |
| ThermalSeverity.Highest | aidl/thermal/thermal-helper.cpp:697-718 | The chosen level is marked and no higher level is |
| ThermalSeverity.CheckHotOverlap | aidl/thermal/utils/thermal_info.cpp:1361-1376 | The nested parser loop accepts exactly the tables in which no configured level overlaps the next configured one |
| ThermalSeverity.OverlapOrdersAll | aidl/thermal/utils/thermal_info.cpp:1361-1376 | The check between neighbours orders every pair of configured levels, across gaps |
| ThermalSeverity.NextHotConfigured | aidl/thermal/thermal-helper.cpp:690-729 | The severity reached is NONE or a configured level |
| ThermalSeverity.NextHotUpper | aidl/thermal/thermal-helper.cpp:690-729 | The new severity never exceeds both the plain level of the value and the previous severity |
| ThermalSeverity.NextHotLower | aidl/thermal/thermal-helper.cpp:690-729 | It is never below the plain level, except exactly when the value sits on the threshold of a lower level without hysteresis |
| ThermalSeverity.RepeatIsStable | aidl/thermal/thermal-helper.cpp:690-729 | Reading the same value again changes nothing, with exactly the same exception |
| ThermalSeverity.TieExample | aidl/thermal/thermal-helper.cpp:704-724 | The exception occurs: thresholds 10 and 20, no hysteresis, falling to exactly 10 |
| ThermalSeverity.HotEnterLeave | aidl/thermal/thermal-helper.cpp:690-729 | A level is entered only at or above its threshold and left only at or below its release point |
| ThermalSeverity.ChatterBound | aidl/thermal/thermal-helper.cpp:591-608 | Over any run, (crossings of a level - 1) times its hysteresis is at most the total variation of the readings |
| ThermalSeverity.ColdMirrorsHot | aidl/thermal/thermal-helper.cpp:709-717 | Cold severity is hot severity of the negated value and thresholds, so all of the above holds for it |
| ThermalSeverity.ColdAfterMirrors | aidl/thermal/thermal-helper.cpp:709-717 | Over any run of readings the cold severity is the hot severity of the negated run on the negated thresholds |
| ThermalSample.StoredStaysInRange | aidl/thermal/thermal-helper.cpp:1511-1524 | Over any run of reads and uevents the stored temperature stays in the range of what was fed in |
| ThermalSample.ErrorIsGeometric | aidl/thermal/thermal-helper.cpp:1511-1524 | Under constant input inside the filter window the error after n refreshes is exactly (1 - step ratio)^n times the first, whatever cached, emulated or failed reads lie between |
| ThermalSample.ReadReturnsStored | aidl/thermal/thermal-helper.cpp:1401-1422 | Outside emulation a successful read returns what is stored afterwards; any other read leaves the stored value alone |
| ThermalSample.CachedRead | aidl/thermal/thermal-helper.cpp:1412-1422 | An unforced read within the time resolution repeats the stored number without asking for input; every other read takes its input, and only a composed one is stamped |
| ThermalSample.SmoothedRead | aidl/thermal/thermal-helper.cpp:1511-1524 | A new number is mixed by the step ratio exactly while the stored one is younger than twice the passive delay |
| ThermalSample.UeventRead | aidl/thermal/thermal-helper.cpp:1542-1548 | A number carried by a uevent is what unforced reads return for the time resolution; a uevent without one changes nothing |
| ThermalFormula.AverageIsDot | aidl/thermal/thermal-helper.cpp:1487-1489 | The running sum of the weighted average is the sum of the products of readings and coefficients |
| ThermalFormula.AverageScales | aidl/thermal/thermal-helper.cpp:1487-1489 | Scaling all coefficients scales the average |
| ThermalFormula.AverageAdds | aidl/thermal/thermal-helper.cpp:1487-1489 | The average under the sum of two coefficient lists is the sum of the averages |
| ThermalFormula.AveragePicks | aidl/thermal/thermal-helper.cpp:1487-1489 | A unit list of coefficients picks its reading |
| ThermalFormula.MaximumIsGreatest | aidl/thermal/thermal-helper.cpp:1490-1495 | The maximum bounds every product of a reading and its coefficient and is one of them |
| ThermalFormula.MinimumIsLeast | aidl/thermal/thermal-helper.cpp:1496-1501 | The minimum is a lower bound of these products and one of them |
| ThermalFormula.CountIsNumber | aidl/thermal/thermal-helper.cpp:1482-1486 | The count is the number of inputs that meet their threshold: below it for a negative coefficient, at or above it otherwise |
| ThermalFormula.CombineMeans | aidl/thermal/thermal-helper.cpp:1464-1508 | Each weighted formula amounts to the sum, count, greatest or least product just described |
| ThermalHelper.ThermalHelperImpl.ReadThermalSensor | aidl/thermal/thermal-helper.cpp:1386-1531 | A whole read of a sensor in the shared table: emulated, cached, or composed from its file or recursively from its inputs, smoothed and stored; the samples of the inputs it reads are refreshed with it, and nothing else changes |
| ThermalHelper.ThermalHelperImpl.ReadInputs | aidl/thermal/thermal-helper.cpp:1436-1451 | The loop over the linked sensors, each a recursive read: all values, or the first that fails or is still collecting |
| ThermalHelper.ThermalHelperImpl.SumInputs | aidl/thermal/thermal-helper.cpp:1464-1508 | The loop over the coefficients, which sums up while it reads, gives the weighted formula of all readings and coefficients |
| ThermalHelper.ThermalHelperImpl.ReadBackup | aidl/thermal/thermal-helper.cpp:1243-1264 | The fallback of an estimator |
| ThermalWorld.OwnSample | aidl/thermal/thermal-helper.cpp:1386-1531 | On its own sample a read is one step of the cached, smoothed sample, so the statements about samples hold in the table |
| ThermalWorld.WeighMeans | aidl/thermal/thermal-helper.cpp:1464-1508 | A weighted sensor is its formula, in that sense, of the linked readings and the coefficients just read, plus the offset |
| ThermalReads.ComposeMeans | aidl/thermal/thermal-helper.cpp:1436-1508 | The whole composition of a weighted sensor: linked sensors first, coefficients next, then the formula and the offset; a failed or missing input is passed on |
| ThermalReads.ComposeEstimates | aidl/thermal/thermal-helper.cpp:1452-1465 | A predicted sensor is its prediction, an estimated one the answer on the linked values, or else its backup sensor, without which it fails |
| ThermalReads.SourcesInOrder | aidl/thermal/thermal-helper.cpp:1436-1451 | The k-th value is what the k-th input reads in the table left by the inputs before it |
| ThermalReads.SourcesStop | aidl/thermal/thermal-helper.cpp:1436-1451 | There are values exactly when every input has a number; the first that has none ends the list, as failed or as late |
| ThermalReads.ReadReports | aidl/thermal/thermal-helper.cpp:585-622 | A read reports the scaled reading and stores a severity that reaches a level exactly when the hot side, the cold side or a reference does, or the emulated severity; a change is left pending |
| ThermalReads.ReferenceAttained | aidl/thermal/thermal-helper.cpp:1135-1154 | The reference severity is that of one of the references and at least that of each when all can be read, and NONE otherwise |
| ThermalHelper.ThermalHelperImpl.GetSeverityReference | aidl/thermal/thermal-helper.cpp:1135-1154 | The worst severity among the references; the loop over recursive reads computes the specification on the whole table |
| ThermalHelper.ThermalHelperImpl.ReadTemperature | aidl/thermal/thermal-helper.cpp:551-640 | A whole read with inputs, references, hysteresis state, emulated severity and the pending flag, for any acyclic graphs of inputs and of references |
| ThermalHelper.ThermalHelperImpl.ApplySeverity | aidl/thermal/thermal-helper.cpp:585-622 | The locked region stores severities and raises the pending flag exactly on a change |
| ThermalHelper.ThermalHelperImpl.ThermalWatcherCallback | aidl/thermal/thermal-helper.cpp:1533-1750 | A watcher round over all sensors is the composition of its visits; it returns their shortest sleep and the queued notifications |
| ThermalHelper.ThermalHelperImpl.StoreUeventReadings | aidl/thermal/thermal-helper.cpp:1542-1548 | Only uevent temperatures that are numbers replace stored samples |
| ThermalHelper.ThermalHelperImpl.WatchSensor | aidl/thermal/thermal-helper.cpp:1552-1735 | One visit: delay by severity or trigger, due or forced, read, notify, vote for a sleep |
| ThermalHelper.ThermalHelperImpl.CheckDue | aidl/thermal/thermal-helper.cpp:1577-1615 | When a visit must read and when it must bypass the cache |
| ThermalHelper.ThermalHelperImpl.CheckUpdateSensorForEmul | aidl/thermal/thermal-helper.cpp:426-446 | The recursion flags exactly the watched virtual sensors that reach the target through a chain of watched virtual sensors, defined by paths, and changes nothing else |
| ThermalHelper.ThermalHelperImpl.EmulTemp | aidl/thermal/thermal-helper.cpp:448-471 | Target and dependents are flagged, only the target gets the emulated value; unknown targets change nothing |
| ThermalHelper.ThermalHelperImpl.EmulSeverity | aidl/thermal/thermal-helper.cpp:473-505 | The same for an emulated severity |
| ThermalHelper.ThermalHelperImpl.EmulClear | aidl/thermal/thermal-helper.cpp:507-529 | Clearing one sensor flags its dependents; clearing all touches every sensor |
| ThermalEmulation.DependsUnfolds | aidl/thermal/thermal-helper.cpp:432-445 | Being reachable through a path is the same as being linked directly or through a linked sensor that is reachable: the step the recursion takes |
| ThermalEmulation.NotItsOwnDependent | aidl/thermal/thermal-helper.cpp:426-446 | On an acyclic link graph no sensor depends on itself, so the target is flagged by its caller only |
| ThermalReads.EmulateFlags | aidl/thermal/thermal-helper.cpp:426-505 | The target carries the emulation, target and dependents are flagged with the throttling request, and no other sensor changes |
| ThermalReads.EmulatedTempReads | aidl/thermal/thermal-helper.cpp:1395-1402 | Every read of a target under an emulated temperature returns it and changes nothing |
| ThermalReads.EmulatedSeverityReads | aidl/thermal/thermal-helper.cpp:473-505 | A read of a target under an emulated severity reports that severity with the value of its hot threshold |
| ThermalReads.EmulationIsVisited | aidl/thermal/thermal-helper.cpp:1620-1644 | After an emulation is set or cleared, the next visit of the target and of every watched dependent reads it whatever its delay |
| ThermalReads.ClearIsVisited | aidl/thermal/thermal-helper.cpp:507-529 | After clearing everything nothing is emulated and the next visit of every watched sensor reads it |
| ThermalReads.UeventsRead | aidl/thermal/thermal-helper.cpp:1542-1548 | In the table, a sensor with a numeric uevent reads as that number within its time resolution, and every other sensor is as before |
| ThermalReads.EmptyUeventBypasses | aidl/thermal/thermal-helper.cpp:1606-1614 | A uevent without a number makes the visit of a physical sensor read its file, however fresh its sample |
| ThermalInputs.EmulationIsLocal | aidl/thermal/thermal-helper.cpp:1395-1402 | An emulation changes no reading of a sensor that does not lead to the target through linked sensors, coefficients or backups, however deep |
| ThermalInputs.FlagsAllExactly | aidl/thermal/thermal-helper.cpp:426-446 | For every target all affected watched sensors are flagged exactly when no link is lost at an unwatched virtual sensor or at an input that is not linked |
| ThermalInputs.UnflaggedButChanged | aidl/thermal/thermal-helper.cpp:429-437 | Behind an unwatched virtual sensor the flags stop and the readings go on: the watched sensor keeps its status and reads the emulated value |
| ThermalRuns.NoLostChange | aidl/thermal/thermal-helper.cpp:1644-1674 | Over any run of reads, rounds and emulations, a sensor without a pending notification shows the severity last announced, and every announcement follows a change |
| ThermalRuns.PerformTold | aidl/thermal/thermal-helper.cpp:610-622 | Each operation keeps that invariant between table and history |
| ThermalRuns.StoredSeverity | aidl/thermal/thermal-helper.cpp:591-622 | Over any run the stored severity reaches a level exactly when the hysteresis applied to all watched readings does, on the hot or the cold side, or a reference of the last read did; an emulated severity stands for itself |
| ThermalRuns.AnnouncedFollowsReadings | aidl/thermal/thermal-helper.cpp:591-622 | Without cold thresholds, references and an emulated severity, the stored and the announced severity are the hysteresis applied to the readings |
| ThermalRuns.TableChatterBound | aidl/thermal/thermal-helper.cpp:591-608 | So the chatter bound holds of the sensor table itself, over any run of reads, rounds and emulations |
| ThermalRuns.RoundMeetsDeadlines | aidl/thermal/thermal-helper.cpp:1552-1744 | After every round each watched sensor that could be read is promised a visit by its last refresh plus the delay used |
| ThermalRuns.RefreshGap | aidl/thermal/thermal-helper.cpp:1577-1744 | In polled runs no readable sensor goes longer than its delay plus one millisecond without a refresh |
| ThermalRounds.VisitReads | aidl/thermal/thermal-helper.cpp:1585-1640 | A visit reads a watched sensor exactly when it was never read, an emulation is pending, a uevent names it or a trigger, or, without uevents, its delay has passed |
| ThermalRounds.VisitDelay | aidl/thermal/thermal-helper.cpp:1568-1735 | The next visit is promised within the passive delay when the sensor throttles, and, when nothing was announced, when a trigger does; within the polling delay otherwise |
| ThermalRounds.RoundAnnounces | aidl/thermal/thermal-helper.cpp:1644-1750 | A round returns exactly the notifications it recorded, in order and with their severities |
| NanTlv.WriteTlv | wlan/wifi_hal/nan.cpp:1279-1316 | The output buffer changes in exactly the bytes of the encoded TLV, also when the source is the buffer itself with the value in place; the returned advance wraps at sixteen bits |
| NanTlv.ReadTlv | wlan/wifi_hal/nan.cpp:1318-1355 | Type, length and advance of the TLV at a position |
| NanTlv.AdvanceIsExact | wlan/wifi_hal/nan.cpp:1311-1315 | The sixteen-bit advance equals the TLV size exactly up to 65531 value bytes |
| NanTlv.WalkVisitsWritten | wlan/wifi_hal/nan_ind.cpp:285-428 | On any concatenation of written TLVs, inside any surrounding bytes, the receive loop visits exactly those TLVs in order and stops at the end |
| NanTlv.WalkStep | wlan/wifi_hal/nan_ind.cpp:297-427 | One turn of the loop: the advance is the length read from the header, so clamping a value never moves the next TLV |
| NanTlv.RoundTrip | wlan/wifi_hal/nan.cpp:1279-1355 | Reading back a written list gives the list |
| NanTlv.EncodingIsInjective | wlan/wifi_hal/nan.cpp:1279-1316 | Two lists of TLVs with the same bytes are the same list |
| NanMessage.TlvBuffer.AddFrom | wlan/wifi_hal/nan.cpp:1357-1368 | addTlv keeps the written part equal to header plus encoded TLVs and the rest zero, for a source outside the buffer or at tlvs + 4 |
| NanMessage.TlvBuffer.Add | wlan/wifi_hal/nan_req.cpp:196-200 | A flagged field adds its TLV and its computed size, an unflagged one nothing |
| NanMessage.WrittenReadsAs | wlan/wifi_hal/nan_ind.cpp:285-428 | A message of header plus encoded TLVs is read back as those TLVs |
| NanMessage.HeaderOctets | wlan/wifi_hal/nan_i.h:265-272 | Read octet by octet the header says version and message id, length, handle and transaction; every request states this of its finished bytes |
| NanMessage.HeaderDetermined | wlan/wifi_hal/nan_i.h:265-272 | Those octets leave no choice: a message of which this holds starts with exactly that header |
| NanScan.AddScan | wlan/wifi_hal/nan_req.cpp:1522-1541 | Three packed words with the fixed channel numbers |
| NanScan.WordValue | wlan/wifi_hal/nan_req.cpp:1522-1541 | As a number each word is channel, dwell time and scan period, in rising octets |
| NanEnable.PutNanEnable | wlan/wifi_hal/nan_req.cpp:23-364 | For every combination of flags the precomputed length is filled exactly and the bytes read back as the TLVs the flags select, in order |
| NanConfig.PutNanConfig | wlan/wifi_hal/nan_req.cpp:398-656 | The same with nested post-discovery values and an availability map in the middle; too many attributes are refused |
| NanCarries.EnableFinds | wlan/wifi_hal/nan_req.cpp:23-364 | Which field a receiver of an enable request finds under each type, and that it finds no other |
| NanCarries.ConfigFinds | wlan/wifi_hal/nan_req.cpp:398-656 | The same for a configuration request |
| NanNested.FillPostDiscovery | wlan/wifi_hal/nan_req.cpp:1558-1592 | The value written in place is the same byte string at any position of any buffer |
| NanNested.PostDiscoverySizeExact | wlan/wifi_hal/nan_req.cpp:1497-1520 | The precomputed size is the size of that value |
| NanNested.AddPostDiscovery | wlan/wifi_hal/nan_req.cpp:575-584 | Filling at tlvs + 4 and adding with that address as source extends the message by the TLV a separate buffer would give |
| NanNested.AddPostDiscoveries | wlan/wifi_hal/nan_req.cpp:575-584 | The same for any list of attributes |
| NanNested.GetPostDiscovery | wlan/wifi_hal/nan_ind.cpp:781-849 | The receive loop with its clamps computes the fold of the inner TLVs |
| NanNested.PostDiscoveryRecovered | wlan/wifi_hal/nan_ind.cpp:781-849 | Type, role, bitmap, address and the mesh id or SSID, clamped to the receiver's capacity, come back; the other field is untouched |
| NanNested.DurationRecovered | wlan/wifi_hal/nan_ind.cpp:794-796 | Octet 2 has two layouts: the duration comes back exactly for 0 without and 3 with the frequency flag |
| NanNested.FillFam | wlan/wifi_hal/nan_req.cpp:1594-1628 | The filled map is the count and the packed channels, as long as calculated |
| NanNested.GetFam | wlan/wifi_hal/nan_ind.cpp:851-893 | Which maps are accepted, and that the count is stored before it is checked |
| NanNested.FamRoundTrip | wlan/wifi_hal/nan_req.cpp:1594-1643 | The receiver returns the same channel list exactly when durations have two bits and map ids four |
| NanNested.FamLayout | wlan/wifi_hal/nan_i.h:830-850 | Octet by octet: the count, and per channel two bits of duration, four of map id, operating class, channel and bitmap |
| NanNested.AddFam | wlan/wifi_hal/nan_req.cpp:585-594 | The map is added in place when configured and not empty or too long |
| NanService.PutNanPublish | wlan/wifi_hal/nan_req.cpp:658-871 | Length, bytes and read-back of the publish request for every combination of options, keys and ranging settings |
| NanService.PutNanSubscribe | wlan/wifi_hal/nan_req.cpp:911-1128 | The same for subscribe, where the length counts a ranging request the writer may leave out: the surplus stays zero |
| NanService.SubscribeReadsBack | wlan/wifi_hal/nan_req.cpp:937-939 | The subscribe message reads back as its TLVs exactly when the two conditions agree on the request |
| NanService.SubscribeNeedsLeastAccept | wlan/wifi_hal/nan_req.cpp:937-939 | They agree on all requests exactly when the accept response is the least non-zero one |
| NanCarries.PublishFinds | wlan/wifi_hal/nan_req.cpp:658-871 | Which field a receiver of a publish request finds under each type, and that it finds no other |
| NanCarries.SubscribeFinds | wlan/wifi_hal/nan_req.cpp:911-1128 | The same for a subscribe request |
| NanService.PutNanTransmitFollowup | wlan/wifi_hal/nan_req.cpp:1168-1240 | Length, bytes and read-back of the follow-up request |
| NanIndications.GetNanMatch | wlan/wifi_hal/nan_ind.cpp:271-430 | The fixed fields come from the header, and the event after the loop is the fold of the visited TLVs |
| NanIndications.MatchHeadRecovered | wlan/wifi_hal/nan_ind.cpp:279-283 | A match indication with a given header, match handle and flag word is read as just that; the id comes from the handle octets of the header |
| NanIndications.MatchCapability | wlan/wifi_hal/nan_ind.cpp:748-761 | The six capability flags a sender packs are the six flags of the event |
| NanIndications.MatchSdea | wlan/wifi_hal/nan_ind.cpp:762-778 | Security and ranging of a sender's service control word are those of the event |
| NanIndications.MatchMap | wlan/wifi_hal/nan_ind.cpp:364-374 | A sender's availability map within the field widths and the capacity fills the front of the event's channels |
| NanIndications.MatchHoldsLast | wlan/wifi_hal/nan_ind.cpp:300-423 | Whatever is sent, each of the nine copied fields holds the last value of its type within its capacity and with its length, or is untouched |
| NanIndications.MatchCollects | wlan/wifi_hal/nan_ind.cpp:345-364 | The discovery attributes found are the first valid ones sent, in order, as many as there is room for |
| NanIndications.StoreMatch | wlan/wifi_hal/nan_ind.cpp:300-423 | Thirteen kinds of TLV with their clamps, nested parsing and refusals |
| NanIndications.MatchCommutes | wlan/wifi_hal/nan_ind.cpp:300-423 | TLVs of different types never interfere in the match event |
| NanIndications.MatchOrderFree | wlan/wifi_hal/nan_ind.cpp:285-428 | Exchanging neighbours of different types anywhere in the stream gives the same event |
| NanIndications.GetNanFollowup | wlan/wifi_hal/nan_ind.cpp:461-524 | The same for the follow-up event |
| NanIndications.FollowupHeadRecovered | wlan/wifi_hal/nan_ind.cpp:469-472 | A follow-up indication with a given header, match handle and flag word is read as just that |
| NanIndications.FollowupDelivered | wlan/wifi_hal/nan_req.cpp:1209-1226 | From the sender's TLVs to the receiver's event: address and texts arrive within the capacities; an unsent text leaves its field alone |
| BtLifecycle.StepSafe | aidl/bluetooth/BluetoothHci.cpp:139-227 | Every step of every thread, at the grain of single lock regions and vendor calls, keeps the invariant |
| BtLifecycle.RunSafe | aidl/bluetooth/BluetoothHci.cpp:139-227 | Any number of threads and any schedule of initialize, close and serviceDied stay in the invariant |
| BtLifecycle.ReachableStates | aidl/bluetooth/vendor_interface.cc:167-182 | At most one thread is between claim and release, READY has no interface, ONE_CLIENT has one opened for the stored client, Initialize and Shutdown alternate, neither failure is reached |
| BtLifecycle.ReleaseOutcome | aidl/bluetooth/BluetoothHci.cpp:148-227 | In every interleaving the owner ends with its client stored and the HAL open exactly when it initializes and the last Open answered true, and else with a ready HAL, no interface and the client of the last successful Open |
| BtLifecycle.InitializeOutcome | aidl/bluetooth/BluetoothHci.cpp:148-200 | From a ready HAL an initialize that runs on ends with its own client exactly when Open succeeds |
| BtLifecycle.CloseOutcome | aidl/bluetooth/BluetoothHci.cpp:139-227 | A close, and an initialize that is turned away, shuts an open HAL down and leaves any other alone |
| BtLifecycle.TransientStatesEnd | aidl/bluetooth/BluetoothHci.cpp:148-227 | A transient state has one owner whose own steps bring the release nearer, and nobody else can move it |
| BtLifecycle.Quiescent | aidl/bluetooth/BluetoothHci.cpp:148-227 | When all calls have returned the HAL is closed without or open with an interface |
| BtCommands.VendorInterface.TransmitCb | aidl/bluetooth/vendor_interface.cc:87-97 | Registers callback and opcode and sends |
| BtCommands.VendorInterface.EventMatch | aidl/bluetooth/vendor_interface.cc:71-85 | Matches exactly a Command Complete event with the registered opcode |
| BtCommands.CompletesItsOpcode | aidl/bluetooth/vendor_interface.cc:71-85 | The bytes of a Command Complete event for an opcode complete exactly the commands with that opcode |
| BtCommands.VendorInterface.HandleIncomingEvent | aidl/bluetooth/vendor_interface.cc:361-375 | Clears the callback before running it; other events go to the stack |
| BtCommands.EveryEventRouted | aidl/bluetooth/vendor_interface.cc:361-375 | For any stream and script every event is routed once, in order and unchanged |
| BtCommands.AllForwarded | aidl/bluetooth/vendor_interface.cc:361-375 | While nothing matches, the stack gets everything and the command stays pending |
| BtCommands.RunsOnFirstMatch | aidl/bluetooth/vendor_interface.cc:361-375 | The pending callback runs on the first matching event, and what it sends is pending afterwards |
| BtCommands.HandleInOrder | aidl/bluetooth/vendor_interface.cc:87-97 | One event keeps "each awaited command runs once and in order" exactly when the callback awaits at most the last command it sends |
| BtCommands.CallbacksRunInOrder | aidl/bluetooth/vendor_interface.cc:361-375 | For scripts that await one command at a time this holds over every stream |
| BtLowPower.VendorInterface.Send | aidl/bluetooth/vendor_interface.cc:304-321 | Asserts wake and restarts the timer if needed, then sends: the steps of one holder of the mutex |
| BtLowPower.VendorInterface.OnTimeout | aidl/bluetooth/vendor_interface.cc:347-359 | Deasserts and stops the timer when nothing was sent since the last timeout |
| BtLowPower.VendorInterface.OnFirmwareConfigured | aidl/bluetooth/vendor_interface.cc:323-345 | Stores the idle timeout, then starts the timer, under no mutex |
| BtLowPower.StepConsistent | aidl/bluetooth/vendor_interface.cc:304-359 | Every step keeps the agreement between the flags and the history of the wake line |
| BtLowPower.WakeIsSafe | aidl/bluetooth/vendor_interface.cc:304-359 | In every run each packet is sent with wake asserted, and wake is deasserted only at a timeout with no packet since the one before |
| BtLowPower.PacketsGoOut | aidl/bluetooth/vendor_interface.cc:304-321 | Over every run each packet handed to Send goes out once and in order; only the last may still be in hand |
| BtLowPower.StepGuarded | aidl/bluetooth/vendor_interface.cc:304-345 | Every step, with Send and the configuration split into reading, storing and arming, keeps the timer of an asserted line at the configured period, except exactly an arming that overtakes a Send |
| BtLowPower.RunGuarded | aidl/bluetooth/vendor_interface.cc:304-345 | So does every interleaving without such an arming |
| BtLowPower.GoesDown | aidl/bluetooth/vendor_interface.cc:323-359 | After every such run, configured with a positive timeout, the second timeout after the last packet deasserts the line, and until then one is due |
| BtLowPower.OvertakenStaysUp | aidl/bluetooth/vendor_interface.cc:309-318 | A first packet overtaken by the configuration leaves the line up with the timer off, whatever the timeout and whatever is sent later |
| BtLowPower.ZeroTimeoutStaysUp | aidl/bluetooth/vendor_interface.cc:323-345 | With a timeout of zero an asserted line stays up until a new session or configuration |
| Tables.Shift | wlan/wifi_hal/common.cpp:148-157 | memmove over an entry leaves the other live entries in order |
| HandlerTable.HalInfo.Register | wlan/wifi_hal/common.cpp:59-82 | Appends or reports a full table |
| HandlerTable.HalInfo.RegisterVendor | wlan/wifi_hal/common.cpp:84-134 | Updates the first matching entry, or appends, or reports a full table |
| HandlerTable.HalInfo.Unregister | wlan/wifi_hal/common.cpp:136-161 | Removes the first entry of a command, never a vendor entry |
| HandlerTable.HalInfo.UnregisterVendor | wlan/wifi_hal/common.cpp:167-196 | Removes the first vendor entry with the key, the name compared over eight characters |
| HandlerTable.RegistrationTakes | wlan/wifi_hal/common.cpp:84-134 | After a successful vendor registration the first entry of the key carries the new handler and argument and nothing else changed; it fails exactly on a full table without the key |
| HandlerTable.PlainRegistration | wlan/wifi_hal/common.cpp:59-82 | A plain registration appends an entry for its command that no vendor key finds |
| HandlerTable.RemovalIs | wlan/wifi_hal/common.cpp:136-196 | What a removal takes is the first entry of the command or of the vendor key, and nothing else |
| HandlerTable.RemovalTakes | wlan/wifi_hal/common.cpp:167-196 | After removing a key by name a keyed table has it no more |
| HandlerTable.CutMeans | wlan/wifi_hal/common.cpp:98-104 | Names match exactly when they agree at each of the first eight places |
| HandlerTable.ApplyKeyed | wlan/wifi_hal/common.cpp:84-196 | Every operation keeps: no two entries share non-zero vendor id, subcommand and the first eight characters of the name |
| HandlerTable.RunKeyed | wlan/wifi_hal/common.cpp:59-196 | So does every run, within the capacity |
| HandlerTable.BracketRestores | wlan/wifi_hal/cpp_bindings.cpp:684-709 | Registering and unregistering a vendor key restores the table exactly when the key was free |
| HandlerTable.HalInfo.RequestVendorEvent | wlan/wifi_hal/cpp_bindings.cpp:684-709 | The same on every exit path of the request, with the result each path returns |
| HandlerTable.HalInfo.RequestEvent | wlan/wifi_hal/cpp_bindings.cpp:656-682 | A plain request restores the table when its command was free, takes away an older handler when it was not, and leaves its own behind for the vendor command |
| HandlerTable.ForeignCommutes | wlan/wifi_hal/common.cpp:59-196 | An operation on another key does to the remaining entries what it would do if the key were absent and the table smaller |
| HandlerTable.BracketAmongOthers | wlan/wifi_hal/cpp_bindings.cpp:684-709 | Whatever others do to other keys while a request waits, they end up with the table they would have had without it, one entry smaller |
| CommandTable.HalInfo.RegisterCmd | wlan/wifi_hal/common.cpp:198-217 | Takes over the caller's reference, or reports a full table; ids are not compared |
| CommandTable.HalInfo.UnregisterCmd | wlan/wifi_hal/common.cpp:219-242 | Removes the first entry with the id and returns its command |
| CommandTable.HalInfo.GetCmd | wlan/wifi_hal/common.cpp:244-256 | The first command with the id |
| CommandTable.HalInfo.RemoveAndRelease | wlan/wifi_hal/common.cpp:272-284 | Removes the entry of an id, whose reference passes to the caller, and releases it |
| CommandTable.HalInfo.BeginRequest | wlan/wifi_hal/wifi_rtt.cpp:402-408 | A new command is registered, or its creator keeps the reference when the table is full |
| CommandTable.HalInfo.FinishRequest | wlan/wifi_hal/wifi_rtt.cpp:409-417 | After start(): a failure removes whatever entry the id finds and releases the request's own command |
| CommandTable.HalInfo.RangeRequest | wlan/wifi_hal/wifi_rtt.cpp:391-418 | The same in one piece, when nothing else happens during start() |
| CommandTable.HalInfo.BeginDispatch | wlan/wifi_hal/wifi_hal.cpp:553-565 | The dispatcher takes its own reference for the time of the handler |
| CommandTable.StartFailsOwned | wlan/wifi_hal/wifi_rtt.cpp:411-415 | A failed start keeps the reference accounting exactly when the id still finds the request's own command |
| CommandTable.StepOwned | wlan/wifi_hal/common.cpp:198-284 | Every step of every thread keeps it exactly when a failed start finds its own command and a dispatch goes to a live one |
| CommandTable.RunOwned | wlan/wifi_hal/wifi_rtt.cpp:287-296 | Over every interleaving of requests, starts, dispatches, removals and releases whose steps meet this, references are exactly table entries plus those held by threads, and no dead command is touched |
| CommandTable.OwnEntryStays | wlan/wifi_hal/wifi_rtt.cpp:404-413 | A request under a free id meets it when nothing takes the id away during start() |
| CommandTable.CompletionOvertakesStart | wlan/wifi_hal/wifi_rtt.cpp:287-296 | For every request under a free id: a completion dispatched to it during start() deletes it, and a start that then fails releases it again |
| CommandTable.LivesWhileUsed | wlan/wifi_hal/cpp_bindings.h:218-231 | In those runs a command lives exactly as long as the table lists it or a thread holds it; references taken over minus dropped is the table size |
| P2pCommand.TokenizeSpace | wlan/wpa_supplicant_8_lib/mediatek_driver_cmd_nl80211.c:979-1004 | Overwrites every separator and records where the tokens start |
| P2pCommand.StartsHoldTokens | wlan/wpa_supplicant_8_lib/mediatek_driver_cmd_nl80211.c:979-1004 | The recorded positions hold exactly the split on space or newline with one trailing empty token dropped |
| P2pCommand.AtoiPrint | wlan/wpa_supplicant_8_lib/mediatek_driver_cmd_nl80211.c:1449-1449 | Parsing a printed number gives it back, for every integer |
| P2pCommand.TextTokens | wlan/wpa_supplicant_8_lib/mediatek_driver_cmd_nl80211.c:1442-1476 | A printed command splits into its name and its three numbers |
| P2pCommand.DispatchesP2p | wlan/wpa_supplicant_8_lib/mediatek_driver_cmd_nl80211.c:1135-1301 | None of the earlier tests, with or without the conditionally compiled ones, catches the two commands |
| P2pCommand.SetNoa | wlan/wpa_supplicant_8_lib/mediatek_driver_cmd_nl80211.c:1006-1047 | Exactly four tokens are accepted; count, interval and duration are the unsigned words of the last three |
| P2pCommand.SetPs | wlan/wpa_supplicant_8_lib/mediatek_driver_cmd_nl80211.c:1049-1096 | The window is the fourth token, with bit 7 set when the third is not zero |
| P2pCommand.DriverCmd | wlan/wpa_supplicant_8_lib/mediatek_driver_cmd_nl80211.c:1098-1301 | Copy with truncation, dispatch by prefix, and the missing supplicant of an access point |
| P2pCommand.SetP2pNoa | wlan/wpa_supplicant_8_lib/mediatek_driver_cmd_nl80211.c:1442-1454 | For all arguments the kernel receives count, start and duration as unsigned words, or nothing is sent; forty characters suffice |
| P2pCommand.SetP2pPs | wlan/wpa_supplicant_8_lib/mediatek_driver_cmd_nl80211.c:1464-1476 | The same for the power-save command with bit 7 |
| UsbModeSwitch.StepSafe | aidl/usb/Usb.cpp:248-298 | Every statement of every binder thread and of the uevent thread keeps the invariant over locks, flag, nodes and history |
| UsbModeSwitch.RunSafe | aidl/usb/Usb.cpp:335-399 | So does every schedule of any number of threads |
| UsbModeSwitch.SuccessIsEarned | aidl/usb/Usb.cpp:248-298 | In every interleaving with spurious wake-ups and timeouts, success means the thread's own flag reset, its own write and then a partner-added event, in this order |
| UsbModeSwitch.ReportIsVerdict | aidl/usb/Usb.cpp:248-298 | Every report has its cause since the request: success a wait that ended without timeout with the partner seen, failure a failed open, a failed write or a timeout |
| UsbModeSwitch.WritesAsAsked | aidl/usb/Usb.cpp:248-269 | A switch writes the requested role to the requested port, and no other request writes |
| UsbModeSwitch.WritesAreGuarded | aidl/usb/Usb.cpp:670-700 | port_type is only written by the holder of mRoleSwitchLock, so the uevent thread's reset never falls into a switch |
| UsbModeSwitch.BackToDual | aidl/usb/Usb.cpp:352-357 | Whatever the nodes said at the start, while nobody holds that lock every port_type node a switch ever wrote says dual again, unless writing it failed |
| UsbModeSwitch.ResetReaches | aidl/usb/Usb.cpp:670-700 | The uevent thread's reset, when its writes work, leaves every port it was given at dual, all others alone, and the lock free |

## Left out

- ThermalHelper.ThermalHelperImpl.EmulSeverity: requires an index from 0 to 6, because the code's guard lets negative
  values and 7 through to an array of seven entries, which has no meaning here.
- ThermalHelper.ThermalHelperImpl.ReadTemperature: one clock value serves a whole read; sensor files, power rails,
  estimators and predictions are inputs of it, and other threads do not read between its lock regions.
- ThermalHelper.ThermalHelperImpl.WatchSensor: the throttling and power calls of the visit are left out.
- ThermalHelper.ThermalHelperImpl.ThermalWatcherCallback: reads by other threads do not fall between the lock regions of
  one visit; the iteration order of the table is a parameter.
- ThermalSeverity.ChatterBound: hysteresis is taken as non-negative; the parser only refuses NaN.
- NanTlv.WalkVisitsWritten: values are limited to 65531 bytes, the range in which the sixteen-bit advance is exact.
- NanIndications.GetNanMatch: asks that the TLVs, and those inside a discovery attribute, lie inside the buffer, which
  the code does not check.
- NanIndications.GetNanFollowup: asks the same of its TLVs.
- HandlerTable.HalInfo.RequestVendorEvent: its contract describes a request during which nobody else uses the table;
  BracketAmongOthers adds the others.
- CommandTable.RunOwned: the code protects the command table with no lock; here each of its operations is one step. The
  handler table is not part of the state, so a dispatch may go to any command, and a dispatch to a dead one, which a
  handler entry left behind by a failed start or a failed cancel makes possible, is excluded by a condition on the run.
- P2pCommand.TokenizeSpace: asks for an argument array with room for the tokens, which the code does not check.
- P2pCommand.SetNoa: asks for at most 64 tokens, the size of that array.
- P2pCommand.SetPs: asks for at most 64 tokens.
- P2pCommand.DriverCmd: asks for at most 64 tokens; atoi's overflow is not modelled.
- Cooling devices, throttling, power logging, prediction windows and configuration parsing beyond the overlap check.
- The wait for a sample time point that was never set: a stored temperature that is not NaN always has one.
- Overflow of the thermal delays at the maximum of the clock's range.
- The content of the fixed parameters, SDEA control, ranging configuration and ranging request fields: byte strings of
  the declared sizes. Sizes from `wifi_nan.h`, which is not part of this model, are constants or parameters.
- getNanPublishReplied, whose remaining length does not match where its TLVs start, the beacon payload and the other
  indications, the statistics messages and the cancel requests.
- Netlink sending and its errors, memory allocation failures, sysfs, logging and dumps.
- AsyncFdWatcher is not part of this model: its timer is taken to repeat with the period last configured, zero turning
  it off. Time stamps and the vendor library are left out; its answers are inputs.
- A command whose transmission overtakes a pending one from another thread of the vendor library.
- The parsing of ranging results before the completion of a request.
- The memory of the handler arrays is a sequence of entries; concurrency is the order of whole table operations.
- The callback to the framework under `mLock` and the attempts of power and data role switches, which write other nodes.
