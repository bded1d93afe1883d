# Modbus adapter: a verified model

The adapter polls Modbus devices. A planner merges the configured signals into block reads, a poll cycle
slices and decodes each answer, a deadband filter decides what to publish, and a publisher buffers samples
per signal and flushes them. Poll threads, repoll commands, the device tick and `stop` share the value cache,
the buffer and the pause latch. A command surface writes and reads signals on demand and pages through the
inventory; interval counters and link alarms report on all of it.

The project models this behaviour and proves what it is for:

- **Planner**: the plan is a legal grouping of the signals and no legal grouping has fewer groups, so the
  number of reads is the least possible and does not depend on the order of configuration. Signals of a table
  that one request can read are read by one request.
- **Poll cycle**: coalesced polling has the effects of single reads, every cycle's statistics balance under
  any pattern of failures, and each signal behaves as if it were polled alone, also beside groups of other units
  that use its name.
- **Codec**: both directions are inverse to each other for all integer types and all four orders; scaling is
  off by at most half a step; text that fits survives.
- **Deadband**: exactly which values are published; drift stays in the band, and the number of publications is
  bounded by the variation of the readings.
- **Concurrency**: over every interleaving no sample is lost or duplicated, per-key order holds when flushes
  of a key do not overlap, and it is known exactly when the consumer ends with the cached value (one thread
  polls the signal and one flushes) and what a paused instance can still publish.
- **Commands**: what a reference means and where it lands, the image after a batch, the exact meaning of both error
  codes, read-back, and paging.
- **Counters and alarms**: nothing recorded of a reported counter is lost or reported twice; alarms alternate and
  each has a cause.

## Layout

| file | content |
|---|---|
| Values, Numerals, Signals, Device | Python values, integers as text, signal descriptions, bits and registers |
| Bytes, Codec | byte and word orders, types, scaling, text |
| Deadband, Planner, Poller | filter, read planner, poll cycle (class `PollManager`) |
| Publisher | buffer and publication (class `SignalUpdatePublisher`) |
| Runtime | the threads of a device as a step system |
| Conservation, Ordering, ConsumerView, PauseSafety | invariants of all its runs |
| Schedules, Overlap, ExactView | who polls and who flushes, and exactly when the consumer view holds |
| PausedOutput | exactly what a paused instance can still emit and publish |
| Refinement | the step system, run without interruption, is the publisher's offer and flush and the poller's cycle |
| Commands, Paging | `sb/write`, `sb/read` (class `CommandService`), `sb/browse` |
| Metrics, Link | interval counters, connected time, link state and alarms (classes) |

Classes carry the source's loops and in-place updates; their methods are proved against functions, and the
laws are lemmas about those functions. Results hold for any device: its answers are arguments (`outcomes`,
`accepts`, `answers`), and what floats, `str` and `float(text)` do is an arbitrary `Platform`.

Where the code and its documentation disagree the model follows the code:

- docs/sample-configurations.md line 370 says bool and string signals publish on any change. `float()` accepts
  a bool, so flags do exactly when the band is at most one unit or 100 percent
  (`Deadband.FlagPublishesEveryChange`; `Deadband.WideBandHidesFlag` is a case that fails). It also reads
  numerals, so text does exactly when there is no positive absolute or percent band
  (`Deadband.TextPublishesEveryChange`; `Deadband.NumeralHidesInBand` is a case that fails).
- modbus_adapter/command_service.py line 215 says of `WRITE_FAILED` that every allowed write reached the device.
  That is so exactly when every allow-listed entry is attempted and encodes (`Commands.AllowedReachDevice`;
  `Commands.ValuelessNeverReaches` is a case that fails). docs/reference/messaging-interface.md line 95 says
  that the device rejected every attempted write; that is so exactly when every attempted entry encodes
  (`Commands.AttemptsReachDevice`; `Commands.UnencodableFails` is a case that fails).
- modbus_adapter/command_service.py line 429 says a paused instance publishes nothing; a cycle past its check
  still does (`PausedOutput.PausedInstancePublishes` is a run). `PausedOutput.PausedPublishesExactly` says
  exactly when it can still publish, `PausedOutput.PausedEmitsExactly` when it can still offer or flush,
  `PauseSafety.PausedEmission` to which cycles that belongs, `PauseSafety.DrainedPauseFreezes` what holds
  afterwards.
- Cache and last delivered value can part when a repoll overlaps the timer on the same signal
  (`Overlap.RepollOverlapsTimer` is a run), and when the flush of `stop` overtakes one of the tick
  (`ExactView.StopOvertakesTick` is a run). They agree in every flushed state exactly when at most one thread
  polls the signal and, with batching, at most one flushes (`ExactView.AdapterViewExactly`).

## Model

| member | source | states |
|---|---|---|
| Signals.AcceptedSignals | modbus_adapter/config/signal_spec.py:28-66 | what every accepted description guarantees, and that it fits one request exactly unless it is a string of a count outside 1..125 |
| Signals.AcceptedExactly | modbus_adapter/config/signal_spec.py:28-60 | exactly which descriptions are accepted, in the texts and figures of the description |
| Signals.KeysGiveFields | modbus_adapter/config/signal_spec.py:42-66 | which key gives which field of the signal, and the defaults of orders, type and deadband |
| Signals.Names | modbus_adapter/codec.py:21-42 | which text names which table and which type, both ways |
| Signals.ReadLengths | modbus_adapter/config/signal_spec.py:62-66 | one bit; one, two or four registers by the width of the type; count registers of text |
| Signals.SignalIdIdentifies | modbus_adapter/config/signal_spec.py:80-82 | two ids are equal exactly when unit, table, address and type are; bit and count do not matter |
| Signals.IdText | modbus_adapter/config/signal_spec.py:80-82 | the documented example of an id |
| Numerals.PrintParse | modbus_adapter/command_service.py:335-352 | a printed integer, such as a cursor, parses back to itself |
| Numerals.NumeralTexts | modbus_adapter/command_service.py:335-352 | what printed integers look like and which texts int() takes |
| Planner.GroupByTable | modbus_adapter/poll_manager.py:34-37 | the dictionary holds each table's signals in input order, tables by first appearance |
| Planner.CoalesceTable | modbus_adapter/poll_manager.py:38-50 | the loop with the open block computes the greedy plan |
| Planner.Coalesce | modbus_adapter/poll_manager.py:30-53 | the whole loop computes the plans of the tables one after the other, which the laws below characterise, limits in figures included |
| Planner.SortSorts | modbus_adapter/poll_manager.py:40-40 | the sort orders by address and keeps the multiset of signals |
| Planner.SortIsStable | modbus_adapter/poll_manager.py:40-40 | signals of equal address keep their input order |
| Planner.TablePlanSound | modbus_adapter/poll_manager.py:30-53 | blocks partition the table's signals in address order, starts strictly increase, no block exceeds the cap or has a hole above maxGap, and the heads of blocks cannot be read together |
| Planner.PlanIsLegalGrouping | modbus_adapter/poll_manager.py:30-53 | the plan itself is a grouping that the two limits allow |
| Planner.PlanIsOptimal | modbus_adapter/poll_manager.py:30-53 | no grouping of the table's signals into any sets within the two limits has fewer sets than the plan has blocks |
| Planner.OneReadSuffices | modbus_adapter/poll_manager.py:23-53 | signals of a table that span at most 2000 bits or 125 registers, without a hole above maxGap, are one block, the only one of the table in the whole plan, and it holds them all |
| Planner.NoReadTooLong | modbus_adapter/poll_manager.py:23-53 | no block of the whole plan is longer than 2000 bits or 125 registers when no signal is |
| Planner.LongestReads | modbus_adapter/poll_manager.py:23-53 | 1500 contiguous coils are one read, 126 contiguous registers are more than one |
| Planner.TableCountIgnoresOrder | modbus_adapter/poll_manager.py:30-53 | the block count of a table is the same for every permutation |
| Planner.ReadCountIgnoresOrder | modbus_adapter/poll_manager.py:30-53 | so is the number of reads of a whole poll |
| Planner.CoalescedOn | modbus_adapter/poll_manager.py:37-50 | the blocks of a table in the whole result are exactly that table's plan |
| Planner.TablesInOrder | modbus_adapter/poll_manager.py:34-37 | the tables read are those mentioned, in order of first mention |
| Planner.ReadsInTableOrder | modbus_adapter/poll_manager.py:37-53 | blocks come table by table in that order |
| Planner.ReadInOrder | modbus_adapter/poll_manager.py:34-50 | signals of a table are read in address order, those of one address in the order of the configuration |
| Planner.FlattenPlan | modbus_adapter/poll_manager.py:40-50 | each signal is planned exactly once and in address order, whatever its length |
| Planner.OversizeIsFirstSignal | modbus_adapter/poll_manager.py:40-50 | without assumptions on lengths, a block over the cap is exactly as long as its first signal |
| Deadband.CacheTracksSignal | modbus_adapter/poll_manager.py:164-170 | for every history of good and bad reads the cache is the last published value, and the latest value is it or does not exceed the band from it, which the next rows put in figures |
| Deadband.NumberAfterNumber | modbus_adapter/config/deadband_spec.py:25-42 | a number y after a number x, whatever their kinds: no band, published if and only if x != y; absolute D, if and only if the distance is at least D; percent D of x != 0, if and only if 100 times the distance is at least D times the size of x; percent of 0, if and only if x != y |
| Deadband.ReadableAfterReadable | modbus_adapter/config/deadband_spec.py:25-42 | absolute and percent bands compare the numbers float() reads, out of text too |
| Deadband.OtherAfterOther | modbus_adapter/config/deadband_spec.py:25-42 | all other values are published if and only if they differ |
| Deadband.AlwaysPublished | modbus_adapter/poll_manager.py:164-168 | a first value, and every value in mode always, is published |
| Deadband.TenPercent | modbus_adapter/config/deadband_spec.py:38-41 | at 10 percent 111 follows 100, but 100 does not follow 111 |
| Deadband.DriftStaysInBand | modbus_adapter/config/deadband_spec.py:25-42 | with an absolute band the latest value is strictly inside it |
| Deadband.PublicationBound | modbus_adapter/config/deadband_spec.py:25-42 | N published values satisfy (N-1)*D <= total variation of the decoded ones |
| Deadband.BandsMultiply | modbus_adapter/config/deadband_spec.py:25-42 | the left side of that bound is the product |
| Deadband.FlagPublishesEveryChange | modbus_adapter/config/deadband_spec.py:25-42 | a flag is published on every change if and only if the band is at most 1, or 100 percent |
| Deadband.WideBandHidesFlag | modbus_adapter/config/deadband_spec.py:25-42 | a band of two hides a flag that drops |
| Deadband.TextPublishesEveryChange | modbus_adapter/config/deadband_spec.py:25-42 | on a platform with two spellings of one number, every change of text is published if and only if the band is neither absolute nor percent, or not positive |
| Deadband.NumeralHidesInBand | modbus_adapter/config/deadband_spec.py:25-42 | a change of text from 1 to 1.0 hides in an absolute band of a half |
| Deadband.PlainTextPublishesOnChange | modbus_adapter/config/deadband_spec.py:25-42 | text that is no numeral is published exactly when it changes |
| Bytes.AssembleRegisters | modbus_adapter/codec.py:105-114 | the loop computes the byte string of the registers in the given orders |
| Bytes.DisassembleBytes | modbus_adapter/codec.py:117-127 | the loop computes the registers of a byte string |
| Bytes.AssembleInverse | modbus_adapter/codec.py:105-127 | the two are inverse to each other in all four orders |
| Bytes.BigBigIsBigEndian | modbus_adapter/codec.py:105-114 | big/big reads registers as section 4.2 of the MODBUS Application Protocol Specification V1.1b3 sends them |
| Bytes.Layouts | modbus_adapter/codec.py:14-17 | the four documented layouts of a 32-bit value |
| Bytes.RegisterPlaces | modbus_adapter/codec.py:105-114 | for lists of any length: which register each byte comes from, in all four orders |
| Bytes.EncodedIsUtf8 | modbus_adapter/codec.py:147-149 | the UTF-8 form of every text decodes without replacement |
| Bytes.Utf8IsEncoded | modbus_adapter/codec.py:147-149 | nothing else does: bytes that decode so are the UTF-8 form of a text |
| Codec.PackUnpack | modbus_adapter/codec.py:60-95 | two's complement packing succeeds exactly on the type's range, and unpacks to the value |
| Codec.UnpackPack | modbus_adapter/codec.py:60-95 | every byte string of the right length unpacks into the range and packs back |
| Codec.IntegerReadback | modbus_adapter/codec.py:60-95 | when an integer signal encodes, and what the registers decode to: the rounded raw value, scaled as the next rows say in figures |
| Codec.IntegerReads | modbus_adapter/codec.py:60-135 | an integer signal whose registers hold x in two's complement decodes to x * scale + offset, to the integer x itself when they are 1 and 0, which absent ones are |
| Codec.FloatReads | modbus_adapter/codec.py:60-135 | the same for floats, x being the number the bit pattern denotes |
| Codec.IntegerWrites | modbus_adapter/codec.py:81-144 | a number y is sent as the integer nearest to (y - offset) / scale, ties to even, in two's complement; it fails if and only if the type does not hold that integer |
| Codec.FloatWrites | modbus_adapter/codec.py:81-144 | for a float signal, as the bit pattern of (y - offset) / scale; it fails if and only if there is none |
| Codec.NumberRefuses | modbus_adapter/codec.py:81-144 | what a numeric signal never takes: anything under scale 0, and values that are no number but for numerals on unscaled floats |
| Codec.NumeralWrites | modbus_adapter/codec.py:81-144 | those are sent as their number |
| Codec.NumberNeedsRegisters | modbus_adapter/codec.py:75-77 | too few registers are an error, further ones are ignored |
| Codec.FlagReads | modbus_adapter/codec.py:70-72 | a flag in a register is the bit of that number from the lowest, 0 by default |
| Codec.BitsAreTruth | modbus_adapter/codec.py:67-94 | bits are read as flags, any value is written to a coil as its truth, and no flag in a register is written |
| Codec.TenthsOffset | modbus_adapter/codec.py:130-144 | 600 at a tenth with offset -40 reads as 20, and 20 is written as 600 |
| Codec.IntegerRoundTrip | modbus_adapter/codec.py:60-127 | decode(encode(n)) = n exactly for the n in range; all others fail to encode |
| Codec.RegistersRoundTrip | modbus_adapter/codec.py:60-144 | encode(decode(regs)) = regs for all registers of the right length, all orders, any scale but zero |
| Codec.FloatRegistersRoundTrip | modbus_adapter/codec.py:60-144 | the same for floats, for every bit pattern that packing restores from its value |
| Codec.HalfEvenNearest | modbus_adapter/codec.py:138-144 | rounding is to the nearest integer, ties to the even one |
| Codec.ScalingBound | modbus_adapter/codec.py:130-144 | a written number reads back within half a scale step if and only if the rounded raw value fits, and fails to encode otherwise |
| Codec.TextRoundTrip | modbus_adapter/codec.py:147-156 | text that fits and does not end in NUL returns unchanged in all orders |
| Codec.TextTruncation | modbus_adapter/codec.py:152-156 | longer text leaves exactly its first 2*count bytes |
| Codec.TextWrites | modbus_adapter/codec.py:152-156 | the registers hold the first 2*count bytes of the text, or of str() of any other value, and NULs behind them |
| Codec.TextReads | modbus_adapter/codec.py:147-149 | text is read as its bytes, or their replacement, without the NULs at the end |
| Codec.EncodedSize | modbus_adapter/codec.py:45-95 | a successful encoding fills exactly the units the signal is read with, in 16-bit registers |
| Poller.PollManager.PollGroup | modbus_adapter/poll_manager.py:105-177 | the cycle over the blocks: new cache, offers, statistics and counters; the cache is kept by unit and name (`Poller.SettleByUnitAndName`) |
| Poller.PollManager.BlockFailed | modbus_adapter/poll_manager.py:121-142 | a failed block gives each of its signals a bad sample |
| Poller.PollManager.BlockAnswered | modbus_adapter/poll_manager.py:119-171 | an answered block is sliced signal by signal |
| Poller.PollManager.Sift | modbus_adapter/poll_manager.py:146-170 | a decoding is bad, published and cached, or suppressed |
| Poller.SettleByUnitAndName | modbus_adapter/poll_manager.py:146-170 | a reading is compared with the entry of (unit, name), and what is offered is what that entry then holds; a bad or suppressed one leaves the cache alone |
| Poller.CycleElsewhere | modbus_adapter/poll_manager.py:105-177 | a cycle leaves every entry and every published value of other units alone, and those of names it does not poll |
| Poller.UnitsAreIndependent | modbus_adapter/poll_manager.py:105-177 | in any run of cycles of any groups on one cache, entry and published values of a signal are those of its own readings, even with equal names on other units |
| Poller.EqualNamesOnTwoUnits | modbus_adapter/poll_manager.py:164-168 | equal first values of one name on two units are both published |
| Poller.FailedBlockOffers | modbus_adapter/poll_manager.py:121-142 | a failed block offers one bad sample for each signal, in order, and leaves the cache alone |
| Poller.EverySignalOffered | modbus_adapter/poll_manager.py:118-171 | in mode always a block offers each of its signals once, in order: its value, or a bad sample |
| Poller.CycleOffersAll | modbus_adapter/poll_manager.py:118-171 | and a cycle all signals of its blocks, block after block |
| Poller.PollAccounts | modbus_adapter/poll_manager.py:105-177 | per table, for every pattern of failures: good + bad = signals, good = decoded = changed + suppressed, offers = changed + bad, requests = blocks, units read = lengths answered; counters likewise |
| Poller.PlanIsUniform | modbus_adapter/poll_manager.py:30-53 | the blocks of the adapter's plan are not empty and hold signals of their own table, whatever the signals are |
| Poller.PlannedSignals | modbus_adapter/poll_manager.py:30-53 | the plan holds as many signals of each table as are configured |
| Poller.PlannedAccounts | modbus_adapter/poll_manager.py:105-177 | the account over the adapter's own plan, for any signals and any failures: good + bad = configured signals of the table, requests = blocks of its plan |
| Poller.SliceIsSingleRead | modbus_adapter/poll_manager.py:143-145 | each slice lies inside its block and holds what reading the signal alone returns |
| Poller.SliceOfAnswer | modbus_adapter/poll_manager.py:143-145 | of an answer shorter than its block each signal gets the units that arrived, those past its end none |
| Poller.CoalescingIsTransparent | modbus_adapter/poll_manager.py:118-171 | a cycle over the plan has the effects of reading every signal alone: same cache, offers and counters |
| Poller.SignalsAreIndependent | modbus_adapter/poll_manager.py:105-177 | over any run of cycles a uniquely named signal behaves as if it were polled alone |
| Poller.PollerPublicationBound | modbus_adapter/poll_manager.py:164-170 | the publication bound on the poller's own offers |
| Publisher.SignalUpdatePublisher.Publish | modbus_adapter/publisher.py:79-116 | valued samples go first, a raising call skips the rest and counts one failure, counters total what was accepted |
| Publisher.SignalUpdatePublisher.Offer | modbus_adapter/publisher.py:58-68 | a batched offer only buffers, any other only publishes |
| Publisher.SignalUpdatePublisher.Flush | modbus_adapter/publisher.py:70-77 | the buffer is emptied and every entry published in turn |
| Publisher.AddSampleBuffers | modbus_adapter/publisher.py:60-66 | an offer appends to its own key and kind and changes nothing else |
| Publisher.BufferOrder | modbus_adapter/publisher.py:60-66 | keys stay in the order of their first samples |
| Publisher.CleanPublication | modbus_adapter/publisher.py:79-100 | without faults every sample of an entry is delivered, each kind in order |
| Publisher.FaultyPublication | modbus_adapter/publisher.py:79-103 | if the call with the valued samples raises nothing is delivered; otherwise all of them are, and the valueless ones unless their own call raises |
| Publisher.CleanFlush | modbus_adapter/publisher.py:70-100 | the same for the whole buffer |
| Publisher.PublicationConserves | modbus_adapter/publisher.py:79-103 | whatever raises, each sample is sent or lost and never both |
| Conservation.RunsConserve | modbus_adapter/publisher.py:58-116 | over every interleaving and every fault each offered sample is exactly one of held, in flight, delivered or dropped, and the counters total what was delivered and dropped |
| Conservation.ExactlyOnePlace | modbus_adapter/publisher.py:58-116 | a sample offered once is in exactly one place |
| Conservation.QuietRunDeliversAll | modbus_adapter/publisher.py:58-116 | with no failure and everything flushed, the log is the offered samples and samplesPublished their number |
| Ordering.RunsOrder | modbus_adapter/publisher.py:58-100 | with no failure and no two threads publishing one key at once, valued and valueless samples of each key are delivered in offer order |
| Ordering.FailuresKeepOrder | modbus_adapter/publisher.py:58-116 | with failures, and the key never published by two threads at once, what was delivered of a key and kind is what was offered with some samples left out, in the same order |
| ConsumerView.AdapterPublishesFirst | modbus_adapter/poll_manager.py:164-165 | the adapter's filter always publishes the first value of a key |
| ConsumerView.RunsKeepView | modbus_adapter/poll_manager.py:143-170 | over every run in which the threads publishing the key agree and settle the latest value, the cache is the last valued offer and the latest value is settled by it |
| ConsumerView.ConsumerSeesCache | modbus_adapter/poll_manager.py:143-170 | then, once the key is flushed without failures, the last delivered value is the cached one and the latest value is settled by it |
| ConsumerView.FinishingApartConcerts | modbus_adapter/poll_manager.py:143-170 | threads may wait for the device at the same time: it is enough that good reads of the key finish outside each other's windows from decision to offer |
| Schedules.PlanKeepsApart | modbus_adapter/publisher.py:58-77 | a key is never published by two threads at once if, with batching, one thread flushes, or, without, one thread polls the key |
| Schedules.PlanKeepsOrder | modbus_adapter/publisher.py:58-100 | then its samples are delivered in offer order |
| Schedules.PlanKeepsSubsequence | modbus_adapter/publisher.py:58-116 | and with failures what is delivered is still in offer order |
| Schedules.OnePollerKeepsView | modbus_adapter/poll_manager.py:143-170 | with one thread polling the key, and one flushing, every reachable flushed state has the consumer view |
| Schedules.ConsumerWithinDeadband | modbus_adapter/config/deadband_spec.py:25-42 | then, under onChange, the latest decoded value does not exceed the deadband from what the consumer was last given |
| Overlap.OverlapBreaksView | modbus_adapter/poll_manager.py:164-168 | from every reachable state with two threads about to publish different values of a key, the run can go on to a flushed state in which the consumer was not last given the cached value |
| Overlap.UnsettledBreaksView | modbus_adapter/poll_manager.py:164-168 | from every reachable state whose latest value is not settled by a value about to be committed, it can go on to a flushed state in which the latest value exceeds the filter |
| Overlap.RepollOverlapsTimer | modbus_adapter/command_service.py:427-437 | a run of timer, repoll and tick in which nothing fails, all is flushed, and the consumer holds the older value |
| ExactView.ViewExactlyConcerted | modbus_adapter/poll_manager.py:143-170 | with batching, for a key in use, the view holds in all reachable flushed states if and only if one thread flushes and in all reachable states the publishing threads agree and settle the latest value |
| ExactView.ViewExactly | modbus_adapter/poll_manager.py:143-192 | with and without batching, the view holds in all reachable flushed states if and only if at most one thread polls the key and, with batching, at most one flushes |
| ExactView.AdapterViewExactly | modbus_adapter/config/deadband_spec.py:25-42 | the same for every publish mode and deadband |
| ExactView.AdapterRepublishes | modbus_adapter/config/deadband_spec.py:25-42 | every filter of the adapter lets some value follow a different one |
| ExactView.OrderExactlyOneFlusher | modbus_adapter/publisher.py:58-100 | with batching, a key in use is delivered in offer order in all reachable states if and only if one thread flushes |
| ExactView.StopOvertakesTick | modbus_adapter/device.py:88-92 | a run of one poll group, tick and stop in which nothing fails, all is flushed, and the consumer holds the older value, out of offer order |
| Refinement.PublishFirstPublishes | modbus_adapter/publisher.py:79-116 | the steps of one publication in a thread do what Publish does |
| Refinement.FlushRefines | modbus_adapter/publisher.py:70-116 | the steps of a whole flush do what Flush does |
| Refinement.OfferRefines | modbus_adapter/publisher.py:58-68 | the steps of one offer, with the publication that follows without batching, do what Offer does |
| Refinement.ReadRefinesSettle | modbus_adapter/poll_manager.py:146-170 | the steps of one read, with and without batching, do to cache and offers what the poller's loop body does |
| Refinement.CycleRefines | modbus_adapter/poll_manager.py:118-171 | so do the steps of a whole cycle against PollGroup, whatever blocks fail |
| PauseSafety.PauseState.IsPaused | modbus_adapter/pause.py:17-19 | a thread that checks now is admitted to its cycle exactly if the answer is no |
| PauseSafety.PauseState.Set | modbus_adapter/pause.py:21-26 | it is the pause or resume step of the device, and the result says whether that step changes anything |
| PauseSafety.PausedEmission | modbus_adapter/poll_manager.py:82-103 | whatever is emitted under the latch belongs to a cycle whose check passed before the latch was set and that has not ended |
| PauseSafety.OneCyclePerPause | modbus_adapter/poll_manager.py:82-103 | all a thread emits under one pause is of one cycle |
| PauseSafety.OneFlushPerPause | modbus_adapter/device.py:75-78 | the tick flushes at most once under a pause |
| PauseSafety.DrainedPauseFreezes | modbus_adapter/command_service.py:427-437 | once the admitted cycles have ended nothing changes at all until resume |
| PausedOutput.PausedEmitsExactly | modbus_adapter/poll_manager.py:82-103 | from a paused state an offer (buffered or not), flush or facade call can still come with the latch set all the way if and only if some thread has work left |
| PausedOutput.PausedPublishesExactly | modbus_adapter/command_service.py:427-437 | from a paused state a message can still be published with the latch set all the way if and only if samples are in flight, or buffered samples can still be swapped out, or samples can still be offered and go out directly or by such a swap |
| PausedOutput.PausedInstancePublishes | modbus_adapter/command_service.py:427-437 | a run that sends its first message with the latch set, with and without batching |
| Commands.CommandService.WriteOne | modbus_adapter/command_service.py:229-249 | one write: device, result and counters; an encode failure is no device error |
| Commands.CommandService.WriteEntry | modbus_adapter/command_service.py:179-210 | one entry of a batch through all the checks, with the allow-list before any device access |
| Commands.CommandService.WriteEntries | modbus_adapter/command_service.py:178-210 | the loop over a batch |
| Commands.CommandService.Write | modbus_adapter/command_service.py:162-227 | the whole batch: device, audits, counters, reply, where each entry lands as `Commands.LandsAt` says; a coded error only with the device as it was |
| Commands.CommandService.Read | modbus_adapter/command_service.py:130-160 | one answer per resolvable reference, read where `Commands.ReadsAt` says; a failed read counts as read and as error |
| Commands.ConclusionMeans | modbus_adapter/command_service.py:211-219 | WRITE_NOT_ALLOWED exactly when every entry is refused, WRITE_FAILED exactly when something was attempted and nothing succeeded, both only with the image unchanged |
| Commands.RefusedBatchDoesNothing | modbus_adapter/command_service.py:186-214 | a batch refused as a whole changes no cell and audits nothing |
| Commands.AttemptsReachDevice | modbus_adapter/command_service.py:204-217 | every attempt succeeded or was a device error if and only if every attempted entry encodes |
| Commands.AllowedReachDevice | modbus_adapter/command_service.py:186-217 | every allow-listed entry reached the device if and only if each of them is attempted and encodes |
| Commands.ValuelessNeverReaches | modbus_adapter/command_service.py:193-217 | an allow-listed entry without a value beside a rejected write: WRITE_FAILED, and the first never reached the device |
| Commands.UnencodableFails | modbus_adapter/command_service.py:215-236 | a value out of range is answered WRITE_FAILED without any device error |
| Commands.LastWriterWins | modbus_adapter/command_service.py:178-210 | after a batch a cell holds what the last successful entry covering it wrote |
| Commands.UncoveredUnchanged | modbus_adapter/command_service.py:178-210 | cells outside the spans of successful entries are unchanged |
| Commands.LandingMeans | modbus_adapter/command_service.py:181-210 | where and what a successful entry writes |
| Commands.ResolvesExactly | modbus_adapter/command_service.py:110-121 | what a reference means, over the reference and the configuration alone: a known name its signal and its group's unit, else the signal at the table and address given, on the unit given or else the default one |
| Commands.MeaninglessFails | modbus_adapter/command_service.py:110-121 | references that mean nothing are exactly those that do not resolve |
| Commands.UnitOfReference | modbus_adapter/command_service.py:116-118 | a given unit is used, the default unit only without one |
| Commands.LandsAt | modbus_adapter/command_service.py:179-249 | an entry writes the unit, table and address it means if and only if nothing stands in its way and the device accepts it |
| Commands.ReportsOf | modbus_adapter/command_service.py:179-210 | the reply to an entry that means something: its name, whether it was written, and which check stopped it |
| Commands.MeaninglessReported | modbus_adapter/command_service.py:181-185 | the reply to one that means nothing, which does nothing |
| Commands.ReportsInOrder | modbus_adapter/command_service.py:178-210 | one report for each entry, in order |
| Commands.EveryAttemptAudited | modbus_adapter/command_service.py:204-210 | every entry tried is audited, failed or not, behind those tried before it |
| Commands.WrittenCounts | modbus_adapter/command_service.py:204-249 | written counts the entries that reached the device and were accepted, write errors those that reached it and were not, audits those tried |
| Commands.ReadsAt | modbus_adapter/command_service.py:123-160 | sb/read answers with the decoding of the units at the unit, table and address a reference means |
| Commands.ReadingsInOrder | modbus_adapter/command_service.py:138-157 | in the order of the references |
| Commands.MissingCounts | modbus_adapter/command_service.py:146-149 | read errors count the answers without a value |
| Commands.OnlyAllowedCellsChange | modbus_adapter/command_service.py:186-210 | every changed cell belongs to an accepted entry for a writable signal on the allow-list |
| Commands.WrittenUnitsStay | modbus_adapter/command_service.py:229-249 | what an entry wrote is still there unless a later successful entry overlaps it |
| Commands.ReadsWhatWasSent | modbus_adapter/command_service.py:123-128 | then reading the same reference decodes exactly what was encoded |
| Commands.IntegerReadsBack | modbus_adapter/command_service.py:123-249 | integers: the written value, or the rounded raw value scaled |
| Commands.CoilReadsBack | modbus_adapter/command_service.py:123-249 | coils: the truth of the written value |
| Commands.TextReadsBack | modbus_adapter/command_service.py:123-249 | text that fits |
| Commands.PollSeesWhatReadSees | modbus_adapter/command_service.py:123-128 | the poller's slice and sb/read of the signal give the same value |
| Paging.AdapterServes | modbus_adapter/command_service.py:333-353 | without a cursor browse answers from the start, with the printed form of an offset from that offset on |
| Paging.AdapterWalks | modbus_adapter/command_service.py:333-353 | the two laws below for the adapter: a walk is bounded, and is finished exactly when its pages add up to the inventory |
| Paging.WalkCollects | modbus_adapter/command_service.py:333-353 | following the cursors with any page sizes gives the inventory in order, all of it exactly when the last page has no cursor |
| Paging.WalkEnds | modbus_adapter/command_service.py:333-353 | a walk has at most as many pages as there are signals, or one |
| Paging.WalkCompletes | modbus_adapter/command_service.py:333-353 | whatever page sizes a client asks for, following the cursors reaches a last page and has then given the inventory |
| Paging.FixedPageCount | modbus_adapter/command_service.py:341-352 | with a fixed max the page count is the inventory over the clamped max, rounded up, at least one |
| Paging.BadCursors | modbus_adapter/command_service.py:333-340 | BAD_ARGS exactly for cursors that are no integer or a negative one |
| Paging.PageSizes | modbus_adapter/command_service.py:341-344 | max is the page size within 1 and 1000, 200 is it without one |
| Paging.PageHolds | modbus_adapter/command_service.py:333-353 | a page holds the entries from the offset a cursor asks for, as many as size and inventory allow, and a cursor exactly while there are more |
| Paging.RefusedCursors | modbus_adapter/command_service.py:335-340 | BAD_ARGS exactly for cursors that ask for no offset or a negative one |
| Metrics.DrainsConserve | modbus_adapter/metrics.py:47-148 | for every interleaving of records and drains, handed out + held = recorded = total; what is handed out of known keys is what is reported |
| Metrics.DrainReportsInterval | modbus_adapter/metrics.py:61-98 | a drain hands out exactly what was recorded since the one before |
| Metrics.CounterFamily.Record | modbus_adapter/metrics.py:305-329 | amounts are added to the named counters, created on first use |
| Metrics.RecordAdds | modbus_adapter/metrics.py:305-329 | a record adds nothing to a key it does not name, and to one it names once just that amount |
| Metrics.AmountConcat | modbus_adapter/metrics.py:305-329 | a record of several amounts adds those of its parts |
| Metrics.CounterFamily.Emit | modbus_adapter/metrics.py:338-429 | every interval is reset and the known keys report what they held |
| Metrics.ClientMetrics.IncrementRead | modbus_adapter/metrics.py:47-50 | a read is recorded in interval and total |
| Metrics.ClientMetrics.IncrementWrite | modbus_adapter/metrics.py:52-55 | the same for a write |
| Metrics.ClientMetrics.IncrementReadError | modbus_adapter/metrics.py:57-59 | a read error is recorded |
| Metrics.ClientMetrics.IncrementWriteError | modbus_adapter/metrics.py:67-72 | a write error is recorded |
| Metrics.ClientMetrics.IncrementReconnect | modbus_adapter/metrics.py:91-93 | a reconnect is recorded |
| Metrics.ClientMetrics.TakeReadErrors | modbus_adapter/metrics.py:61-65 | the error interval is handed out and reset |
| Metrics.ClientMetrics.TakeWriteErrors | modbus_adapter/metrics.py:74-78 | the same for write errors |
| Metrics.ClientMetrics.TakeReconnects | modbus_adapter/metrics.py:95-99 | the same for reconnects |
| Metrics.ClientMetrics.ToDict | modbus_adapter/metrics.py:127-135 | both intervals are handed out and reset, the totals stay |
| Metrics.ConnectionMetrics.EmitConnection | modbus_adapter/metrics.py:338-352 | the duration emitted is the time since the last connected emission, 0 if there is none |
| Metrics.ConnectedTime | modbus_adapter/metrics.py:338-345 | over an unbroken connected stretch the durations add up to last minus first emission |
| Metrics.DisconnectedTime | modbus_adapter/metrics.py:343-345 | nothing accrues while the link is down |
| Link.DeviceLink.constructor | modbus_adapter/connection.py:37-58 | connect retries until an attempt succeeds, counting attempts and failures |
| Link.DeviceLink.SetConnected | modbus_adapter/connection.py:98-101 | a drop is recorded exactly when a link that was up goes down |
| Link.DeviceLink.Read | modbus_adapter/connection.py:103-129 | transport errors and silence take the link down, every response proves it up, and only data is returned, cut to the count |
| Link.ActionDecides | modbus_adapter/connection.py:60-150 | which actions bring the link up, take it down or leave it, and what each counts |
| Link.LastWord | modbus_adapter/connection.py:98-150 | over any run: up after a response or successful reconnect with no error or close since, down after an error or the close of a client with neither since |
| Link.DeviceLink.StartReconnect | modbus_adapter/connection.py:60-66 | the link is closed without a drop |
| Link.DeviceLink.RecordAttempt | modbus_adapter/connection.py:67-68 | the attempt is counted in a step of its own |
| Link.DeviceLink.FinishReconnect | modbus_adapter/connection.py:70-86 | success brings the link up, failure is recorded |
| Link.DeviceLink.Close | modbus_adapter/connection.py:144-150 | a close takes an open link down |
| Link.DeviceLink.Shutdown | modbus_adapter/device.py:88-92 | stop closes the link |
| Link.DeviceLink.Tick | modbus_adapter/device.py:79-86 | an alarm exactly when the sampled state changed, a reconnect counted with each clear |
| Link.CountersCount | modbus_adapter/connection.py:60-101 | the drop and reconnect counters are the numbers of drops and begun reconnects on record, up to reconnects about to be counted |
| Link.AlarmsAlternate | modbus_adapter/device.py:75-86 | over every run alarms strictly alternate from a raise on, and reconnects equal clears |
| Link.RaisesAreBacked | modbus_adapter/device.py:75-86 | each raise has a drop, a begun reconnect or the stop after the alarm before it |
| Link.CausesAreOwn | modbus_adapter/device.py:75-86 | different raises have different causes |
| Link.RaisesBounded | modbus_adapter/connection.py:60-101 | without a stop there are never more raises than recorded drops and reconnect attempts, those about to be counted included |
| Link.TickBeforeCount | modbus_adapter/connection.py:65-68 | a tick between close and count raises an alarm that no counter shows yet |

## Left out

- Planner.PlanIsOptimal: assumes maxGap >= 0 and lengths of at least 1; config.schema.json asks for both, the code checks neither.
- Planner.TablePlanSound: assumes in addition that no length exceeds the cap. Nothing bounds the count of a string from above; `Planner.OversizeIsFirstSignal` and `Planner.FlattenPlan` hold without any assumption.
- ExactView.ViewExactly: with batching, speaks of keys that some thread polls on devices on which some thread flushes; of others nothing is ever delivered.
- ExactView.ViewExactlyConcerted: with batching only; without it a value is also on its way while its own thread sends it.
- Poller.CoalescingIsTransparent: the device answers every block; one that holds a string longer than a request may ask for is refused, with every signal in it.
- Metrics.DrainsConserve: intervals of keys outside the reported lists are reset without a report; the adapter records none.
- Refinement.CycleRefines: the readings of a cycle follow each other; that a block is read before its signals are decoded is one read per signal in the step system.
- Codec.FloatRegistersRoundTrip: IEEE packing is an arbitrary pair of functions, so which bit patterns packing restores is left open (negative zero, NaN and infinities are not restored from a real number); scaling and deadbands use exact reals.
- Codec.TextTruncation: states bytes; what decoding makes of a character cut in half is an arbitrary function.
- Codec.EncodedSize: excludes strings of negative count, which config.schema.json excludes as well.
- Paging.BadCursors: int() is modelled over ASCII digits, signs, spaces and underscores; other Unicode digits and spaces are not.
- Link.RaisesAreBacked: the tick samples and reports in one step, and one read completes in one step; races inside a pymodbus call or between a read and the swap of the client are not modelled.
- Conservation.RunsConserve: counters are totals, not split by publish mode; batchFlushes and dataMessagesPublished are covered by the publisher class only.
- pymodbus, sockets, serial framing, timeouts and sleeps: the device answers, answers with an exception or fails.
- The edgecommons facades: a publication is appended to a log or raises; event and metric emission is not followed further.
- The command counters (requests, readSignals, writeFailures and so on): sums over the replies modelled here.
- Timestamps, latencies, pollDurationMs, pollOverruns and staleSignals: clocks are not modelled.
- Quality texts and error texts: a bad sample is a sample without a value, and errors are a small set of reasons.
- Hierarchical browse, panels, status, signals and describe: one-branch lookups or text.
- sb/write bodies that are not lists of objects, and unitId or address values that are not integers: the Python conversion is not modelled.
- write_register against write_registers: both store the same registers, so the model has one operation.
- Restarting a device and reloading its configuration.
