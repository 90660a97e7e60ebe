# MementoGroup sink, modelled in Dafny

Serilog.Sinks.MementoGroup is a Serilog sink that groups log events by the
value of a correlation property (for example `CorrelationId`). Each group has
its own buffer:

- Events at or above the **passthrough** level go downstream at once.
- Events in the band from **minimum** up to (but not including) passthrough
  are held back in a FIFO queue.
- The first event at or above the **trigger** level flushes the queue
  downstream, oldest first, and detaches it. From then on the buffer is
  *latched*: every event at or above minimum goes downstream live.
- Events without the correlation property are forwarded iff they are at or
  above passthrough.
- A background loop drops buffers that have been idle longer than the buffer
  expiry.
- The configuration extension validates its arguments and logs advisory
  warnings about badly ordered thresholds.

The model is a set of pure functions over immutable data:

- `wrappers.dfy`: `Option` and `Result`.
- `events.dfy`: levels as the enum's underlying 32-bit values, compared as
  integers. The named levels are Verbose = 0 … Fatal = 5, but any other value
  can be passed, such as 6 (Serilog's `LevelAlias.Off`). Also log records, correlation keys, threshold triples, and
  order-preserving filters by a `Selector`.
- `log_entry_buffer.dfy`: one buffer as a two-state machine, `Collecting(queue)`
  or `Latched` (the source's queue set to null). It has `Write`, `Flush` and
  `Run`, which writes a sequence of records one after another. Each operation
  returns the new buffer and the records forwarded downstream, in order.
- `memento_group_sink.dfy`: the registry of buffers by key, `Emit` routing, and
  the expiry sweep. The sweep is `SweepExpired`, a method that removes expired
  keys one at a time as the source's loop does. `Sweep` is its reference
  definition.
- `sink_configuration.dfy`: the `MementoGroup` extension method. It covers the
  three argument checks in order, which of the two advisory self-log lines are
  written and in what order, a target-logger setup that may throw, the parameters the sink is built with (milliseconds converted to
  ticks) and the minimum level of the downstream logger.
- `scenarios.dfy`: the repository's unit tests replayed against the model. It
  includes the one-million and 1.2-million record streams, with sequential
  emits in place of the parallel ones.

Clock readings are explicit `int` parameters in .NET ticks (100 ns). A
buffer's last-activity time is the timestamp of the last record written to it.
The property value's rendering (`ToString()`) is taken as the key string.

Two details of the code are worth stating:

- **Correlation property name.** A null, empty or all-whitespace name is
  rejected with `ArgumentNullException` (`string.IsNullOrWhiteSpace`,
  LoggerSinkConfigurationExtensions.cs:41). Whitespace is .NET's
  `char.IsWhiteSpace` set. `SinkConfiguration.IsNullOrWhiteSpace` models it.
- **Six-record scenario.** The six-record correlated test expects 5 forwarded
  records (MementoGroupSinkTests.cs:113): Information, Warning, Debug, Error,
  Fatal. Debug is released by the Error, ahead of it.
  `Scenarios.CorrelatedSixForwardsFive` proves that exact sequence.

## Model

| member | source | states |
|---|---|---|
| LogEntryBuffer.Create | src/Serilog.Sinks.MementoGroup/LogEntryBuffer.cs:18-29 | a new buffer carries its key, is stamped with the clock reading at creation, and is collecting with an empty queue |
| LogEntryBuffer.Flush | src/Serilog.Sinks.MementoGroup/LogEntryBuffer.cs:59-66 | a flush forwards exactly the records still queued, oldest first, and leaves the buffer latched; key and last activity are untouched |
| LogEntryBuffer.FlushOnce | src/Serilog.Sinks.MementoGroup/LogEntryBuffer.cs:59-66 | the queue is detached only once: a second flush forwards nothing and changes nothing |
| LogEntryBuffer.Write | src/Serilog.Sinks.MementoGroup/LogEntryBuffer.cs:35-57 | a write stamps the buffer with the record's timestamp and keeps its key; afterwards the buffer is latched iff it was latched before or the record is at or above trigger |
| LogEntryBuffer.WriteRoutes | src/Serilog.Sinks.MementoGroup/LogEntryBuffer.cs:37-56 | on a trigger or a latched buffer, the old queue goes out first, then the record if it is admitted; on a collecting buffer below trigger, the record is forwarded at passthrough, appended to the queue's end in the minimum band, and dropped below minimum |
| LogEntryBuffer.WritePendingFrom | src/Serilog.Sinks.MementoGroup/LogEntryBuffer.cs:48-56 | after a write, the queue holds only records it held before plus the record written |
| LogEntryBuffer.WriteConserves | src/Serilog.Sinks.MementoGroup/LogEntryBuffer.cs:35-66 | across one write, queued plus forwarded records equal the records queued before plus the record if admitted (as multisets); nothing is duplicated or lost |
| LogEntryBuffer.Run | src/Serilog.Sinks.MementoGroup/LogEntryBuffer.cs:35-57 | across a sequence of writes, the key is kept, a latched buffer stays latched, and the last activity is the last record's timestamp |
| LogEntryBuffer.RunAppend | src/Serilog.Sinks.MementoGroup/LogEntryBuffer.cs:35-57 | writing `xs` and then `ys` is the same as writing `xs + ys`: same buffer, forwarded outputs concatenated |
| LogEntryBuffer.RunConserves | src/Serilog.Sinks.MementoGroup/LogEntryBuffer.cs:35-66 | over any run, still-queued plus forwarded records equal previously queued plus admitted written records, as multisets: no record forwarded twice, no admitted record lost |
| LogEntryBuffer.RunLatchedStreams | src/Serilog.Sinks.MementoGroup/LogEntryBuffer.cs:44-55 | once latched (queue null), a buffer forwards exactly the admitted records, live and in order, and stays latched |
| LogEntryBuffer.RunWithoutTrigger | src/Serilog.Sinks.MementoGroup/LogEntryBuffer.cs:44-56 | with no trigger-level record, a collecting buffer forwards exactly the records at or above passthrough, in order, and appends the minimum-band records to its queue, in order |
| LogEntryBuffer.FirstTriggerFlushes | src/Serilog.Sinks.MementoGroup/LogEntryBuffer.cs:39-66 | the first trigger releases, after the live records before it, the entire queue oldest first; then the trigger record and every later admitted record follow live, and the buffer is latched |
| LogEntryBuffer.TriggerLatches | src/Serilog.Sinks.MementoGroup/LogEntryBuffer.cs:39-42 | any trigger-level record in a run leaves the buffer latched |
| LogEntryBuffer.TriggeredForwardsAllAdmitted | src/Serilog.Sinks.MementoGroup/LogEntryBuffer.cs:39-66 | after a trigger, every record queued before and every admitted record written is forwarded exactly once (multiset and count) |
| LogEntryBuffer.FreshBufferOutput | src/Serilog.Sinks.MementoGroup/LogEntryBuffer.cs:27-66 | for a new buffer with minimum at or below passthrough: with no trigger the output is exactly the records at or above passthrough, in order; with a trigger it is every record at or above minimum, each exactly once |
| LogEntryBuffer.PassthroughAtMostMinimumNeverQueues | src/Serilog.Sinks.MementoGroup/LogEntryBuffer.cs:44-51 | with passthrough at or below minimum nothing is ever queued, and the output is exactly the records at or above passthrough, live; this is the case the first advisory warns about |
| Events.CorrelationKey | src/Serilog.Sinks.MementoGroup/MementoGroupSink.cs:58-59 | a record has a key iff it carries the correlation property, and the key is that property's value |
| MementoGroupSink.GetOrAdd | src/Serilog.Sinks.MementoGroup/MementoGroupSink.cs:63-64 | afterwards the key maps to the returned buffer and the keys are the old keys plus that key; an existing entry is never replaced and no other key changes; a new key gets a new buffer stamped with `now` |
| MementoGroupSink.Emit | src/Serilog.Sinks.MementoGroup/MementoGroupSink.cs:56-72 | a record without the correlation property leaves the registry alone and is forwarded iff at or above passthrough; a record with it is written to its key's buffer (created on demand), the key is registered afterwards, and every other key's buffer is unchanged |
| MementoGroupSink.EmitIgnoresClock | src/Serilog.Sinks.MementoGroup/MementoGroupSink.cs:63-66 | the emit's result does not depend on the clock reading: a new buffer's creation stamp is overwritten by the write at once |
| MementoGroupSink.EmitKeepsConsistent | src/Serilog.Sinks.MementoGroup/MementoGroupSink.cs:58-66 | emitting preserves the registry invariant: every buffer sits under its own key and queues only records carrying that key |
| MementoGroupSink.EmitForwardsOwnCorrelation | src/Serilog.Sinks.MementoGroup/MementoGroupSink.cs:56-72 | an emit forwards only records with the same correlation value as the emitted record (or none) |
| MementoGroupSink.EmitPerKey | src/Serilog.Sinks.MementoGroup/MementoGroupSink.cs:58-66 | seen from one key, an emit acts as that key's buffer write when the record carries the key, and otherwise forwards nothing of the key and leaves its buffer as it was |
| MementoGroupSink.EmitAll | src/Serilog.Sinks.MementoGroup/MementoGroupSink.cs:56-72 | emitting never unregisters a key |
| MementoGroupSink.EmitAllKeepsConsistent | src/Serilog.Sinks.MementoGroup/MementoGroupSink.cs:58-66 | the registry invariant holds after any sequence of emits |
| MementoGroupSink.EmitAllKeyBuffer | src/Serilog.Sinks.MementoGroup/MementoGroupSink.cs:58-66 | after any sequence of emits, a key's buffer is the one a lone buffer reaches when fed only that key's records, and the key is registered iff it was before or one of its records arrived |
| MementoGroupSink.EmitAllKeyForwarded | src/Serilog.Sinks.MementoGroup/MementoGroupSink.cs:56-72 | after any sequence of emits, the records forwarded for a key are exactly what a lone buffer fed only that key's records forwards, in order |
| MementoGroupSink.EmitAllPerKey | src/Serilog.Sinks.MementoGroup/MementoGroupSink.cs:56-72 | keys are independent: for each key, forwarded records and final buffer equal a lone buffer fed only that key's records; the key is registered iff it was before or one of its records arrived |
| MementoGroupSink.EmitUnkeyed | src/Serilog.Sinks.MementoGroup/MementoGroupSink.cs:68-71 | one emit, restricted to records without the property, forwards exactly those at or above passthrough |
| MementoGroupSink.EmitAllUnkeyed | src/Serilog.Sinks.MementoGroup/MementoGroupSink.cs:68-71 | over any sequence of emits, the uncorrelated records forwarded are exactly those at or above passthrough, in order |
| MementoGroupSink.EmitAllOneCorrelation | src/Serilog.Sinks.MementoGroup/MementoGroupSink.cs:56-72 | if every emitted record has the same correlation value, so does every forwarded record |
| MementoGroupSink.SweepExpired | src/Serilog.Sinks.MementoGroup/MementoGroupSink.cs:45-51 | one pass of the expiry loop keeps exactly the buffers with last activity not before `now - expiry` (collecting or latched alike), unchanged, and equals the reference `Sweep` |
| MementoGroupSink.SweepIdempotent | src/Serilog.Sinks.MementoGroup/MementoGroupSink.cs:45-51 | sweeping again with the same cutoff removes nothing more |
| MementoGroupSink.SweepTwice | src/Serilog.Sinks.MementoGroup/MementoGroupSink.cs:41-52 | two successive passes amount to one pass at the later cutoff |
| MementoGroupSink.SweepKeepsConsistent | src/Serilog.Sinks.MementoGroup/MementoGroupSink.cs:45-51 | a sweep preserves the registry invariant |
| MementoGroupSink.EmitAfterExpiry | src/Serilog.Sinks.MementoGroup/MementoGroupSink.cs:50-66 | once a key's buffer is swept away, its next record starts a new collecting buffer: whatever was queued before is lost |
| SinkConfiguration.TargetMinimumLevel | src/Serilog.Sinks.MementoGroup/LoggerSinkConfigurationExtensions.cs:59-63 | the downstream logger's minimum level is the sink's minimum level, whatever the caller's action set |
| SinkConfiguration.IsNullOrWhiteSpace | src/Serilog.Sinks.MementoGroup/LoggerSinkConfigurationExtensions.cs:41-44 | null and empty names count as blank; otherwise a name is blank iff every character is white space |
| SinkConfiguration.MementoGroup | src/Serilog.Sinks.MementoGroup/LoggerSinkConfigurationExtensions.cs:29-68 | null action, then null-or-whitespace property name, then negative expiry, each failing only if the earlier checks passed, and then with no advisory; once all three pass, each advisory is logged iff its ordering condition, passthrough first, and then the call fails iff the caller's action or `CreateLogger` throws, with the advisories already logged; on success the sink gets the property, expiry × 10000 ticks and the three levels |
| SinkConfiguration.DefaultsBuildQuietly | src/Serilog.Sinks.MementoGroup/LoggerSinkConfigurationExtensions.cs:11-65 | with the defaults (30000 ms, Information, Error, Debug) no advisory is logged, and the call succeeds iff the target logger builds, then with a 30-second expiry and the default levels |
| SinkConfiguration.LevelsNeverCauseErrors | src/Serilog.Sinks.MementoGroup/LoggerSinkConfigurationExtensions.cs:37-57 | threshold levels never decide whether or how the call fails: ordering problems are advisories only |
| SinkConfiguration.OrderedThresholdsAreQuiet | src/Serilog.Sinks.MementoGroup/LoggerSinkConfigurationExtensions.cs:50-57 | minimum < passthrough < trigger logs no advisory |
| Scenarios.SingleRecord | test/Serilog.Sinks.MementoGroup.Tests/MementoGroupSinkTests.cs:22-80 | a single record, with or without correlation, is forwarded iff it is at or above Information |
| Scenarios.UncorrelatedSixForwardsFour | test/Serilog.Sinks.MementoGroup.Tests/MementoGroupSinkTests.cs:82-98 | Verbose..Fatal without correlation forwards exactly Information, Warning, Error, Fatal |
| Scenarios.CorrelatedSixForwardsFive | test/Serilog.Sinks.MementoGroup.Tests/MementoGroupSinkTests.cs:100-116 | Verbose..Fatal with one correlation forwards exactly Information, Warning, Debug, Error, Fatal, and leaves the buffer latched |
| Scenarios.UncorrelatedTwelveForwardsEight | test/Serilog.Sinks.MementoGroup.Tests/MementoGroupSinkTests.cs:118-137 | the uncorrelated six twice forward the four at or above Information twice, eight records in all |
| Scenarios.CorrelatedFourteenForwardsTen | test/Serilog.Sinks.MementoGroup.Tests/MementoGroupSinkTests.cs:139-163 | the fourteen correlated records forward exactly ten, in the stated order |
| Scenarios.BelowTriggerForwardsHalf | test/Serilog.Sinks.MementoGroup.Tests/MementoGroupSinkTests.cs:165-179 | `4n` correlated records with levels `i % 4` forward `2n` |
| Scenarios.MillionBelowTrigger | test/Serilog.Sinks.MementoGroup.Tests/MementoGroupSinkTests.cs:165-179 | 1000000 records with levels `i % 4` forward 500000 |
| Scenarios.WithTriggerForwardsFiveSixths | test/Serilog.Sinks.MementoGroup.Tests/MementoGroupSinkTests.cs:181-195 | `6n` correlated records with levels `i % 6` (n ≥ 1) forward `5n` |
| Scenarios.MillionWithTrigger | test/Serilog.Sinks.MementoGroup.Tests/MementoGroupSinkTests.cs:181-195 | 1200000 records with levels `i % 6` forward 1000000 |
| Scenarios.TargetLoggerTakesMinimumLevel | test/Serilog.Sinks.MementoGroup.Tests/LoggerSinkConfigurationExtensionTests.cs:9-36 | whatever level the target action requests, the downstream logger ends at the `minimumLevel` argument |

## Left out

- Concurrency is not modelled: the sweeper task, `Task.Delay`, cancellation and
  `Dispose` (MementoGroupSink.cs:39-53, 74-77). Each operation is atomic in the
  model. The atomicity of `ConcurrentDictionary.GetOrAdd` and `TryRemove` is
  assumed.
- The enqueue/detach race that the source flags at LogEntryBuffer.cs:50 is not
  modelled. A writer can read the queue field, then a concurrent flush detaches
  the queue (line 61). If the writer enqueues before the flush's drain loop
  (lines 62-65) finishes, the loop forwards the record. The writer then sees
  null at line 52 and forwards it again, so it goes out twice. The sequential
  model has no such interleaving, so `RunConserves` (no record forwarded twice)
  holds only for writes that do not overlap a flush.
- The parallel high-volume tests become sequential emits of the same records.
  With one correlation value, the count they check is the same for every
  order.
- MementoGroupSink.EmitAll: uses one clock reading for the whole sequence.
  `EmitIgnoresClock` shows that Emit's result does not depend on it.
- The expiry loop's timing (one sweep per expiry interval) is not modelled.
  `SweepExpired` is a single pass at an explicit clock reading `now`.
- `TimeSpan.FromMilliseconds` overflow for huge `bufferExpiryInMs` is not
  modelled, and neither is the `DateTimeOffset` range of `Now - expiry`.
  Ticks are unbounded integers.
- The downstream logger's own filtering is out of scope: the model stops at
  the records handed to `Logger.Write`. Its sinks are out of scope too, and
  Serilog's `LoggerConfiguration` is reduced to the minimum level.
- How property values are rendered (`ToString()` of a `LogEventPropertyValue`)
  is out of scope. A record's properties map names to already-rendered
  strings.
- `SelfLog` output is modelled as the list of advisories written, each naming
  the ordering condition it reports. The message texts and the text channel
  are not modelled.
- SinkConfiguration.MementoGroup: an exception from the caller's action or
  from `CreateLogger` is reduced to one `TargetLoggerFailed` outcome. Which
  exception it was is not modelled, and neither is anything the action does
  besides setting a minimum level and possibly throwing.
- The example web application is not part of this model.
