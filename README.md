# ecChronos repair core, modelled in Dafny

ecChronos is a repair scheduler for Apache Cassandra. This project models the
part of it that decides whether a scheduled repair may run:

- **Lock acquisition.** `RepairLockFactoryImpl` takes one distributed lock per
  repair resource, all or nothing. It checks that every (datacenter, resource
  name) key has sufficient nodes, rejects an empty resource set, rethrows a
  cached failure, and then calls `tryLock` for each resource in order until
  one fails. A `TemporaryLockHolder` keeps the locks taken so far and closes
  all of them when a later step fails.
- **Repair group.** A `RepairGroup` is one scheduled repair job for a table:
  - its constructor checks that every builder field is set;
  - `execute` runs the group's repair tasks, asking the table's repair
    policies before each one and always cleaning up a task it ran;
  - `getLock` locks the group's repair resources, with the table written into
    the lock metadata.
- **Configuration parsing:**
  - `UnitConverter.toBytes` reads sizes such as `"64k"`;
  - `Interval` is a duration in a `TimeUnit`, read with `TimeUnit.convert` and
    set from a unit name in any case;
  - `AbstractRepairConfigurationProvider.get` falls back to the default repair
    configuration;
  - `CASLockFactoryBuilder` holds defaults and validates itself in `build()`.

Files:

- `common.dfy`: Java's `long` with wrap-around (`WrapLong`), truncating
  division (`TruncDiv`), `Option`/`Result`, and table references.
- `locking.dfy`: the lock types, and the `LockFactory` that the repair lock
  factory calls.
  - The factory is a class whose answers come from an `Oracle`.
  - It keeps the set of locks it holds and the list of every call it received.
- `repair_locking.dfy`: `RepairLockFactoryImpl`.
  - The methods follow the Java loops.
  - `GetLockSpec` gives the outcome of a whole `getLock` call in closed form.
  - The lemmas prove the lock properties from `GetLockSpec`.
- `repair_groups.dfy`: `RepairGroup`.
  - construction, `shouldContinue`, `getRepairTasks`, `execute` and `getLock`;
  - `ExecuteSpec` is the closed form of `execute`.
- `unit_converter.dfy`: `UnitConverter.toBytes`.
- `intervals.dfy`: `TimeUnit` conversion and parsing, and the `Interval` class.
- `repair_configuration_provider.dfy`: `AbstractRepairConfigurationProvider`.
- `cas_lock_factory.dfy`: `CASLockFactoryBuilder`.

Where the Java code iterates the set of repair resources, the model fixes one
iteration order: the sequence given to `getLock`. The table's configurations
are copied in an arbitrary order, which the resulting set does not depend on.

## Model

| member | source | states |
|---|---|---|
| Locking.LockFactory.TryLock | core/src/main/java/com/ericsson/bss/cassandra/ecchronos/core/lock/RepairLockFactoryImpl.java:128 | A tryLock is recorded as a call. A granted key yields a new lock that the factory then holds. A refused key yields null. A failing key throws its own LockException. In both of these cases the held locks are unchanged. |
| Locking.LockFactory.SufficientNodesForLocking | core/src/main/java/com/ericsson/bss/cassandra/ecchronos/core/lock/RepairLockFactoryImpl.java:41-42 | The answer is the lock factory's sufficient-nodes answer for that (datacenter, resource) key. The check is recorded as a call, and nothing else in the factory changes. |
| Locking.LockFactory.GetCachedFailure | core/src/main/java/com/ericsson/bss/cassandra/ecchronos/core/lock/RepairLockFactoryImpl.java:72-73 | The answer is the failure cached for that key, or none when no failure is cached. The lookup is recorded as a call, and nothing else in the factory changes. |
| Locking.LockFactory.CloseLock | core/src/main/java/com/ericsson/bss/cassandra/ecchronos/core/lock/RepairLockFactoryImpl.java:169 | Closing a lock is recorded. If the close does not throw, the lock is no longer held; if it throws, the lock is still held. |
| Locking.ReleaseAllClosesEveryLock | core/src/main/java/com/ericsson/bss/cassandra/ecchronos/core/lock/RepairLockFactoryImpl.java:163-176 | Releasing a list closes every lock in list order, one call per lock, even after earlier closes throw. Each lock whose close succeeds is released, and no other held lock is touched. |
| RepairLocking.TemporaryLockHolder.Add | core/src/main/java/com/ericsson/bss/cassandra/ecchronos/core/lock/RepairLockFactoryImpl.java:150-153 | The lock is appended to the holder's list. |
| RepairLocking.TemporaryLockHolder.GetAndClear | core/src/main/java/com/ericsson/bss/cassandra/ecchronos/core/lock/RepairLockFactoryImpl.java:155-160 | Returns the held locks in order and leaves the holder empty. |
| RepairLocking.TemporaryLockHolder.Close | core/src/main/java/com/ericsson/bss/cassandra/ecchronos/core/lock/RepairLockFactoryImpl.java:163-176 | The factory ends up exactly as if every held lock had been closed in order, ignoring the closes that throw. |
| RepairLocking.FirstNotLockable | core/src/main/java/com/ericsson/bss/cassandra/ecchronos/core/lock/RepairLockFactoryImpl.java:39-46 | The index of the first resource without sufficient nodes: every earlier one has them and this one has not. It is the length of the list when all pass. |
| RepairLocking.KeyOf | core/src/main/java/com/ericsson/bss/cassandra/ecchronos/core/lock/RepairLockFactoryImpl.java:120-128 | The key of every factory call for a resource is its datacenter together with its resource name for LOCKS_PER_RESOURCE = 1. |
| RepairLocking.FirstCachedFailure | core/src/main/java/com/ericsson/bss/cassandra/ecchronos/core/lock/RepairLockFactoryImpl.java:70-80 | The index of the first resource with a cached failure, with none before it. |
| RepairLocking.FirstNotGranted | core/src/main/java/com/ericsson/bss/cassandra/ecchronos/core/lock/RepairLockFactoryImpl.java:93-107 | The index of the first resource whose tryLock does not grant, with every earlier one granted. |
| RepairLocking.GetLockForRepairResource | core/src/main/java/com/ericsson/bss/cassandra/ecchronos/core/lock/RepairLockFactoryImpl.java:113-144 | One tryLock on the resource's key, with the caller's node, priority and metadata. A granted lock is returned. Null becomes "Lock resources exhausted" for the resource, and a thrown LockException is passed on unchanged. |
| RepairLocking.GetRepairResourceLocks | core/src/main/java/com/ericsson/bss/cassandra/ecchronos/core/lock/RepairLockFactoryImpl.java:83-111 | The result and the factory's new state are those of AcquireSpec. Locks are taken in resource order until one fails; then every lock taken is closed and the failure is thrown. |
| RepairLocking.ValidateNoCachedFailures | core/src/main/java/com/ericsson/bss/cassandra/ecchronos/core/lock/RepairLockFactoryImpl.java:67-81 | Returns the cached exception of the first resource that has one, or nothing. It looks up resources in order and stops at the first hit. |
| RepairLocking.GetLock | core/src/main/java/com/ericsson/bss/cassandra/ecchronos/core/lock/RepairLockFactoryImpl.java:30-65 | The result and the factory's new state are those of GetLockSpec. The stages are sufficiency, empty set, cached failures and acquisition. |
| RepairLocking.NotLockableFailsBeforeAnyLocking | core/src/main/java/com/ericsson/bss/cassandra/ecchronos/core/lock/RepairLockFactoryImpl.java:39-46 | If any resource lacks sufficient nodes, getLock throws "not lockable" for such a resource. Only sufficiency checks were made: no cache lookup and no tryLock, and the held locks are unchanged. |
| RepairLocking.EmptyResourceSetNeverLocks | core/src/main/java/com/ericsson/bss/cassandra/ecchronos/core/lock/RepairLockFactoryImpl.java:48-53 | An empty resource set always ends in "No datacenters to lock" and leaves the factory untouched. |
| RepairLocking.CachedFailureIsRethrown | core/src/main/java/com/ericsson/bss/cassandra/ecchronos/core/lock/RepairLockFactoryImpl.java:55-80 | With every resource lockable, a cached failure is rethrown as it is, for the first resource that has one. tryLock is never called and the held locks are unchanged. |
| RepairLocking.LockedIffEveryStagePasses | core/src/main/java/com/ericsson/bss/cassandra/ecchronos/core/lock/RepairLockFactoryImpl.java:39-64 | getLock returns locks if and only if the set is non-empty and every resource passes three tests: it is lockable, it has no cached failure, and its tryLock grants. |
| RepairLocking.NullLockIsResourcesExhausted | core/src/main/java/com/ericsson/bss/cassandra/ecchronos/core/lock/RepairLockFactoryImpl.java:128-137 | A tryLock that returns null for the i-th resource, after the earlier ones were granted, gives "Lock resources exhausted" for that resource. |
| RepairLocking.FailureReleasesEveryAcquiredLock | core/src/main/java/com/ericsson/bss/cassandra/ecchronos/core/lock/RepairLockFactoryImpl.java:91-176 | On failure, every lock held before is still held. Any lock held afterwards that was not held before is one whose close was attempted in this call and threw. |
| RepairLocking.FailureRestoresHeldLocks | core/src/main/java/com/ericsson/bss/cassandra/ecchronos/core/lock/RepairLockFactoryImpl.java:91-110 | When no close throws, a failed getLock leaves exactly the locks that were held before it. |
| RepairLocking.SuccessHoldsOneLockPerResource | core/src/main/java/com/ericsson/bss/cassandra/ecchronos/core/lock/RepairLockFactoryImpl.java:57-109 | On success there is one new lock per resource, on that resource's key and in order. The factory holds the old locks plus these, and nothing was closed. |
| RepairLocking.AcquireCallsOnResources | core/src/main/java/com/ericsson/bss/cassandra/ecchronos/core/lock/RepairLockFactoryImpl.java:93-128 | Every call of the acquisition stage names a given resource's key. Its tryLocks carry the caller's node, priority and metadata. |
| RepairLocking.CallsUseResourceKeysAndCallerArguments | core/src/main/java/com/ericsson/bss/cassandra/ecchronos/core/lock/RepairLockFactoryImpl.java:41-128 | Every call getLock makes on the factory uses a given resource's datacenter and its resource name for LOCKS_PER_RESOURCE = 1. Every tryLock passes node, priority and metadata unchanged. |
| RepairLocking.GetLockPreservesValid | core/src/main/java/com/ericsson/bss/cassandra/ecchronos/core/lock/RepairLockFactoryImpl.java:30-65 | getLock keeps the factory's invariant: every held lock was handed out earlier. |
| RepairGroups.NewBuilder | core.impl/src/main/java/com/ericsson/bss/cassandra/ecchronos/core/impl/repair/RepairGroup.java:166-180 | A new builder has every field unset, except the policy list, which is empty. |
| RepairGroups.NewRepairGroup | core.impl/src/main/java/com/ericsson/bss/cassandra/ecchronos/core/impl/repair/RepairGroup.java:48-67 | Construction succeeds if and only if every builder field is set, and the group then holds exactly those values. A missing table reference is reported first. |
| RepairGroups.FreshBuilderFailsOnTableReference | core.impl/src/main/java/com/ericsson/bss/cassandra/ecchronos/core/impl/repair/RepairGroup.java:48-52 | Building from a fresh builder fails with "Table reference must be set". |
| RepairGroups.FirstMissingFieldIsReported | core.impl/src/main/java/com/ericsson/bss/cassandra/ecchronos/core/impl/repair/RepairGroup.java:51-66 | Whichever field is the first one not set, in declaration order, the error is that field's "... must be set" message, whatever the later fields hold. |
| RepairGroups.CompleteIffEveryCheckPasses | core.impl/src/main/java/com/ericsson/bss/cassandra/ecchronos/core/impl/repair/RepairGroup.java:51-66 | The builder is complete if and only if none of the eight checks finds its field unset. |
| RepairGroups.ShouldContinue | core.impl/src/main/java/com/ericsson/bss/cassandra/ecchronos/core/impl/repair/RepairGroup.java:113-116 | True if and only if every policy allows the table, so an empty policy list never vetoes. |
| RepairGroups.GetRepairTasks | core.impl/src/main/java/com/ericsson/bss/cassandra/ecchronos/core/impl/repair/RepairGroup.java:152-164 | Exactly one incremental repair task, for the given node, carrying the group's table, configuration, JMX proxy factory and metrics. |
| RepairGroups.FirstStop | core.impl/src/main/java/com/ericsson/bss/cassandra/ecchronos/core/impl/repair/RepairGroup.java:81-103 | The first task position at which a policy vetoes or the task is interrupted, with none before it. |
| RepairGroups.ExecuteTasks | core.impl/src/main/java/com/ericsson/bss/cassandra/ecchronos/core/impl/repair/RepairGroup.java:79-110 | The result and the sequence of execute and cleanup events are those of ExecuteSpec. |
| RepairGroups.Execute | core.impl/src/main/java/com/ericsson/bss/cassandra/ecchronos/core/impl/repair/RepairGroup.java:75-111 | execute(nodeID) runs the group's single task as ExecuteSpec describes for one task. |
| RepairGroups.AttemptsOrder | core.impl/src/main/java/com/ericsson/bss/cassandra/ecchronos/core/impl/repair/RepairGroup.java:81-107 | Tasks run in list order, and each task is cleaned up immediately after its execute. |
| RepairGroups.AttemptsOnce | core.impl/src/main/java/com/ericsson/bss/cassandra/ecchronos/core/impl/repair/RepairGroup.java:81-108 | Exactly the first m tasks have events, and no event happens twice. |
| RepairGroups.ExecuteSucceedsIff | core.impl/src/main/java/com/ericsson/bss/cassandra/ecchronos/core/impl/repair/RepairGroup.java:79-110 | execute returns true if and only if, before every task, the policies allow it and the task completes normally. |
| RepairGroups.ExecuteTrace | core.impl/src/main/java/com/ericsson/bss/cassandra/ecchronos/core/impl/repair/RepairGroup.java:81-108 | The events are the tasks before the stopping point, each executed and then cleaned up. |
| RepairGroups.VetoStopsExecution | core.impl/src/main/java/com/ericsson/bss/cassandra/ecchronos/core/impl/repair/RepairGroup.java:83-88 | A veto before task i makes the result false. Neither task i nor any later task is executed or cleaned up. |
| RepairGroups.InterruptionStopsExecution | core.impl/src/main/java/com/ericsson/bss/cassandra/ecchronos/core/impl/repair/RepairGroup.java:93-107 | An interrupted task makes the result false and is still cleaned up. No later task is executed. |
| RepairGroups.FailureDoesNotStopExecution | core.impl/src/main/java/com/ericsson/bss/cassandra/ecchronos/core/impl/repair/RepairGroup.java:93-103 | A task that fails without interruption makes the result false, but the next task still runs. |
| RepairGroups.CleanupOncePerAttemptedTask | core.impl/src/main/java/com/ericsson/bss/cassandra/ecchronos/core/impl/repair/RepairGroup.java:89-107 | cleanup runs exactly once for each task whose execute was attempted, right after it, and never for any other task. The attempted tasks are a prefix of the list. |
| RepairGroups.GroupExecutionSucceedsIff | core.impl/src/main/java/com/ericsson/bss/cassandra/ecchronos/core/impl/repair/RepairGroup.java:79-110 | A group's execute succeeds if and only if the policies allow its one task and that task completes. |
| RepairGroups.GetLock | core.impl/src/main/java/com/ericsson/bss/cassandra/ecchronos/core/impl/repair/RepairGroup.java:125-134 | The same outcome as the repair lock factory's getLock with three inputs: metadata {keyspace, table} taken from the table reference, the resource factory's resources for the replica group, and the group's priority. The factory's invariant is kept. |
| RepairGroups.GroupLockCarriesTableMetadata | core.impl/src/main/java/com/ericsson/bss/cassandra/ecchronos/core/impl/repair/RepairGroup.java:128-133 | Every tryLock of a group's getLock has metadata keys exactly "keyspace" and "table", holding the group's table. It carries the group's priority and names one of the replica group's resources. |
| UnitConverter.MatchBytePattern | application/src/main/java/com/ericsson/bss/cassandra/ecchronos/application/config/utils/UnitConverter.java:8-20 | A match splits the text into a non-empty run of digits followed by at most one of k, K, m, M, g, G. |
| UnitConverter.MatchBytePatternIsFullMatch | application/src/main/java/com/ericsson/bss/cassandra/ecchronos/application/config/utils/UnitConverter.java:8-21 | The matcher accepts exactly the strings in the language of `^([0-9]+)([kKmMgG]?)$`. |
| UnitConverter.ToBytes | application/src/main/java/com/ericsson/bss/cassandra/ecchronos/application/config/utils/UnitConverter.java:18-41 | A value rejected as unknown is reported with the text it was given. Its meaning on every input is stated by UnknownValueIffNoMatch and ToBytesOfSplit. |
| UnitConverter.UnknownValueIffNoMatch | application/src/main/java/com/ericsson/bss/cassandra/ecchronos/application/config/utils/UnitConverter.java:20-24 | toBytes throws "Unknown value" if and only if the text does not match the byte pattern. |
| UnitConverter.RejectsMalformedValues | application/src/main/java/com/ericsson/bss/cassandra/ecchronos/application/config/utils/UnitConverter.java:8-24 | "", "k", "1kb" and "-1" are rejected. |
| UnitConverter.ToBytesOfSplit | application/src/main/java/com/ericsson/bss/cassandra/ecchronos/application/config/utils/UnitConverter.java:20-40 | For digits plus an optional suffix, the result is the parsed digits times the suffix's multiplier with long wrap-around, or NumberFormat when the digits exceed Long.MAX_VALUE. |
| UnitConverter.PlainDigitsAreBytes | application/src/main/java/com/ericsson/bss/cassandra/ecchronos/application/config/utils/UnitConverter.java:25-39 | Digits without a suffix give their decimal value, when it fits in a long. |
| UnitConverter.LeadingZeroIgnored | application/src/main/java/com/ericsson/bss/cassandra/ecchronos/application/config/utils/UnitConverter.java:25 | A leading zero does not change the decimal value of the digits. |
| UnitConverter.LeadingZeroToBytes | application/src/main/java/com/ericsson/bss/cassandra/ecchronos/application/config/utils/UnitConverter.java:25-39 | toBytes("0" + d) == toBytes(d) for a non-empty digit string d whose value fits in a long. |
| UnitConverter.LeadingZeroTooLarge | application/src/main/java/com/ericsson/bss/cassandra/ecchronos/application/config/utils/UnitConverter.java:25-39 | For digits above Long.MAX_VALUE a leading zero changes the result. Both strings are rejected by parseLong, each with a NumberFormatException that names its own digits. |
| UnitConverter.SuffixMultiplies | application/src/main/java/com/ericsson/bss/cassandra/ecchronos/application/config/utils/UnitConverter.java:10-37 | With suffix k or K the result is the value times 1024. With m or M it is times 1048576, and with g or G times 1073741824, whenever the product fits in a long. These are the factors of `Multiplier`, the suffix switch, as toBytes applies them. |
| UnitConverter.SuffixCaseInsensitive | application/src/main/java/com/ericsson/bss/cassandra/ecchronos/application/config/utils/UnitConverter.java:29-37 | A lower-case and an upper-case suffix are accepted or rejected alike, and give the same number after any non-empty digit string. |
| UnitConverter.RejectsBadDigitGroup | application/src/main/java/com/ericsson/bss/cassandra/ecchronos/application/config/utils/UnitConverter.java:8-24 | A unit suffix after anything other than a non-empty run of digits is rejected as an unknown value. |
| UnitConverter.TooLargeRejected | application/src/main/java/com/ericsson/bss/cassandra/ecchronos/application/config/utils/UnitConverter.java:25 | A digit part larger than Long.MAX_VALUE is rejected with a NumberFormatException. |
| UnitConverter.OverflowWraps | application/src/main/java/com/ericsson/bss/cassandra/ecchronos/application/config/utils/UnitConverter.java:31 | "8589934592g" is 2^33 × 2^30 = 2^63, which wraps to Long.MIN_VALUE. |
| UnitConverter.DecimalString | application/src/main/java/com/ericsson/bss/cassandra/ecchronos/application/config/utils/UnitConverter.java:25 | Every natural number has a digit string whose decimal value it is. |
| UnitConverter.DecimalRoundTrip | application/src/main/java/com/ericsson/bss/cassandra/ecchronos/application/config/utils/UnitConverter.java:25-39 | toBytes of the decimal string of any n up to Long.MAX_VALUE gives n back. This is the meaning of `ParseLong`, which models Long.parseLong: it accepts a digit string exactly when its value fits in a long. |
| Common.WrapLong | application/src/main/java/com/ericsson/bss/cassandra/ecchronos/application/config/utils/UnitConverter.java:31-37 | Java long arithmetic: a result in range is unchanged. |
| Common.WrapLongCongruent | application/src/main/java/com/ericsson/bss/cassandra/ecchronos/application/config/utils/UnitConverter.java:31-37 | A wrapped result differs from the true product by a multiple of 2^64. |
| Common.TruncDiv | application/src/main/java/com/ericsson/bss/cassandra/ecchronos/application/config/repair/Interval.java:26 | Java's division rounds toward zero, so the quotient lies between 0 and the dividend. |
| Intervals.Convert | application/src/main/java/com/ericsson/bss/cassandra/ecchronos/application/config/repair/Interval.java:24-27 | TimeUnit.convert: the same unit gives the time unchanged. A coarser unit never increases the magnitude and keeps the sign. A finer unit never decreases it. The exact values are stated by ConvertToSameUnit, ConvertToCoarserTruncates and ConvertToFinerSaturates. |
| Intervals.ConvertToSameUnit | application/src/main/java/com/ericsson/bss/cassandra/ecchronos/application/config/repair/Interval.java:24-27 | Converting to the interval's own unit returns the time unchanged. |
| Intervals.ConvertToCoarserTruncates | application/src/main/java/com/ericsson/bss/cassandra/ecchronos/application/config/repair/Interval.java:26 | Converting to a coarser unit divides by the unit ratio, truncating toward zero. The remainder has the sign of the time and is smaller than the ratio. |
| Intervals.TruncDivRemainder | application/src/main/java/com/ericsson/bss/cassandra/ecchronos/application/config/repair/Interval.java:26 | a − (a / b)·b has the sign of a and is smaller than b in magnitude. |
| Intervals.ConvertToFinerSaturates | application/src/main/java/com/ericsson/bss/cassandra/ecchronos/application/config/repair/Interval.java:26 | Converting to a finer unit multiplies by the unit ratio when the product fits. Otherwise it saturates at Long.MAX_VALUE or Long.MIN_VALUE. |
| Intervals.SaturateMeaning | application/src/main/java/com/ericsson/bss/cassandra/ecchronos/application/config/repair/Interval.java:26 | The saturating multiplication of TimeUnit.convert is exact in range and clamps to the side of the overflow. |
| Intervals.DefaultFrequencyInMilliseconds | application/src/main/java/com/ericsson/bss/cassandra/ecchronos/application/config/scheduler/SchedulerConfig.java:10-12 | 30 SECONDS are 30000 MILLISECONDS. |
| Intervals.SchedulerRunInterval | application/src/main/java/com/ericsson/bss/cassandra/ecchronos/application/spring/ECChronosInternals.java:66 | The scheduler's default frequency, read in milliseconds, is the run interval 30000. |
| Intervals.ValueOf | application/src/main/java/com/ericsson/bss/cassandra/ecchronos/application/config/repair/Interval.java:50 | TimeUnit.valueOf finds the constant with exactly the given name, or there is none. |
| Intervals.ParseTimeUnit | application/src/main/java/com/ericsson/bss/cassandra/ecchronos/application/config/repair/Interval.java:47-51 | TimeUnit.valueOf of the Locale.US upper-casing. A unit is returned only when its name is that upper-casing. Otherwise no unit has that name, and the error carries the upper-cased text. ParseTimeUnitIff gives both directions. |
| Intervals.ParseTimeUnitIff | application/src/main/java/com/ericsson/bss/cassandra/ecchronos/application/config/repair/Interval.java:48-51 | A name gives unit u if and only if its US upper-casing is u's name. |
| Intervals.UnitNameRoundTrip | application/src/main/java/com/ericsson/bss/cassandra/ecchronos/application/config/repair/Interval.java:48-51 | Every unit's own name parses back to that unit. |
| Intervals.ParseIgnoresCase | application/src/main/java/com/ericsson/bss/cassandra/ecchronos/application/config/repair/Interval.java:50 | Names that agree apart from case parse alike. |
| Intervals.ParseSecondsExamples | application/src/main/java/com/ericsson/bss/cassandra/ecchronos/application/config/repair/Interval.java:47-51 | "seconds", "Seconds" and "SECONDS" give SECONDS, and "second" is rejected. |
| Intervals.Interval.Empty | application/src/main/java/com/ericsson/bss/cassandra/ecchronos/application/config/repair/Interval.java:13-16 | The no-argument constructor leaves the time 0 and the unit unset. |
| Intervals.Interval.constructor | application/src/main/java/com/ericsson/bss/cassandra/ecchronos/application/config/repair/Interval.java:18-45 | After Interval(t, u), getTime() is t and getUnit() is u. |
| Intervals.Interval.GetInterval | application/src/main/java/com/ericsson/bss/cassandra/ecchronos/application/config/repair/Interval.java:24-27 | With no unit set there is no result, because Java throws a NullPointerException. In the interval's own unit the result is the time itself. Toward a coarser or equal unit its magnitude never exceeds the time. |
| Intervals.Interval.SetTime | application/src/main/java/com/ericsson/bss/cassandra/ecchronos/application/config/repair/Interval.java:35-39 | Only the time changes. |
| Intervals.Interval.SetUnit | application/src/main/java/com/ericsson/bss/cassandra/ecchronos/application/config/repair/Interval.java:47-51 | A valid name in any case sets the unit. An invalid name throws IllegalArgumentException and changes nothing. The time never changes. |
| RepairConfigurationProvider.AbstractRepairConfigurationProvider.constructor | application/src/main/java/com/ericsson/bss/cassandra/ecchronos/application/spring/AbstractRepairConfigurationProvider.java:20-28 | The default repair configuration is the Config's, fixed at construction; the field is a constant. |
| RepairConfigurationProvider.AbstractRepairConfigurationProvider.Get | application/src/main/java/com/ericsson/bss/cassandra/ecchronos/application/spring/AbstractRepairConfigurationProvider.java:30-39 | With forTable non-empty the result equals it, and the default is not added unless forTable has it. With forTable empty the result is exactly {default}. It is never empty. |
| CasLockFactory.CASLockFactoryBuilder.constructor | core.impl/src/main/java/com/ericsson/bss/cassandra/ecchronos/core/impl/cas/CASLockFactoryBuilder.java:22-89 | A fresh builder has no provider and no host states, keyspace "ecchronos" and cache expiry 30 seconds. |
| CasLockFactory.CASLockFactoryBuilder.WithNativeConnectionProvider | core.impl/src/main/java/com/ericsson/bss/cassandra/ecchronos/core/impl/cas/CASLockFactoryBuilder.java:30-35 | Sets only the provider and returns the same builder. |
| CasLockFactory.CASLockFactoryBuilder.WithHostStates | core.impl/src/main/java/com/ericsson/bss/cassandra/ecchronos/core/impl/cas/CASLockFactoryBuilder.java:37-41 | Sets only the host states and returns the same builder. |
| CasLockFactory.CASLockFactoryBuilder.WithKeyspaceName | core.impl/src/main/java/com/ericsson/bss/cassandra/ecchronos/core/impl/cas/CASLockFactoryBuilder.java:43-47 | Sets only the keyspace name and returns the same builder. |
| CasLockFactory.CASLockFactoryBuilder.WithCacheExpiryInSeconds | core.impl/src/main/java/com/ericsson/bss/cassandra/ecchronos/core/impl/cas/CASLockFactoryBuilder.java:49-53 | Sets only the cache expiry, to any value, and returns the same builder. |
| CasLockFactory.CASLockFactoryBuilder.Build | core.impl/src/main/java/com/ericsson/bss/cassandra/ecchronos/core/impl/cas/CASLockFactoryBuilder.java:55-68 | A missing provider gives "Native connection provider cannot be null", checked first. Otherwise a missing host states gives "Host states cannot be null". Otherwise a factory is built with the builder's four values, and the keyspace and expiry are not checked. |
| CasLockFactory.BuildWithDefaults | core.impl/src/main/java/com/ericsson/bss/cassandra/ecchronos/core/impl/cas/CASLockFactoryBuilder.java:22-68 | A builder given only its provider and host states builds on keyspace "ecchronos" with expiry 30. |
| CasLockFactory.BuildFreshBuilder | core.impl/src/main/java/com/ericsson/bss/cassandra/ecchronos/core/impl/cas/CASLockFactoryBuilder.java:57-60 | With both collaborators missing, the provider error is the one reported. |
| CasLockFactory.BuildPassesSettingsThrough | core.impl/src/main/java/com/ericsson/bss/cassandra/ecchronos/core/impl/cas/CASLockFactoryBuilder.java:43-89 | The last value set wins, and any keyspace name and any expiry pass through build unchanged. |

## Left out

- **The lock factory's internals are not modelled.** This covers the CAS
  statements, leases, how long cached failures are kept, and preemption by
  priority. The factory appears only as its answers: sufficient nodes, the
  cached failure, tryLock's result and whether close throws.
- **Opaque collaborators.** `RepairResource.getResourceName` and
  `RepairResourceFactory.getRepairResources` are given as functions, because
  their code is not part of this model.
- **Lock identity.** A `LockCollection` is modelled as the list of the locks
  it wraps. Each lock is a value with an identity number.
- **Exception identity.** A `LockException` is a value, and two equal values
  are the same exception. A cached failure rethrown by `getLock` is therefore
  equal to the cached one, whereas Java rethrows the very same object.
- **Repair tasks.** The body of `IncrementalRepairTask` (JMX, the repair
  itself, metrics) and its `cleanup` are left out. A task's execution is an
  outcome given per position: completed, failed, or failed because
  interrupted.
- **Policy checks.** A policy's `shouldRun` answer is given per table and per
  check.
- **Not modelled in the runtime:** logging, `toString` of the group and the
  lock factory (which appears in the "No datacenters" message), thread
  interruption and concurrency.
- RepairGroups.GetLock: the group's lock factory is taken to be
  `RepairLockFactoryImpl`, the only implementation of `RepairLockFactory` in
  this model. The `repairLockFactory` field is carried from the builder into
  the group, but `GetLock` never consults it.
- NewRepairGroup: the group builder's `with*` setters and `build(priority)`
  are modelled by building a `Builder` value. The policy list is copied at
  construction; with values, later changes to the builder cannot reach the
  group, so there is no aliasing to model.
- **Java nulls.**
  - A null `unit` string passed to `setUnit` is not modelled, and neither are
    nulls inside the builders' values.
  - A null keyspace name in the CAS builder is not modelled, although Java
    accepts it.
  - A null `TimeUnit` argument to `getInterval` is not modelled.
  - The only nulls modelled are the builder fields and the unset unit of
    `Interval`.
- ParseTimeUnit: upper-casing covers ASCII letters, dotless i (U+0131) and long
  s (U+017F), which are the only characters that upper-case to a single
  letter of a TimeUnit name. Every other character is kept as it is.
  Characters that upper-case to several characters cannot help to form a
  name either. ß gives SS, and the Latin ligatures give FF, FI, FL, FFI, FFL
  or ST, but no TimeUnit name contains SS, ST or F. Every other such upper
  case holds a character that is not an ASCII letter, such as a combining
  mark, a modifier letter, or a Greek or Armenian letter. The accepted names
  are therefore exactly Java's, but the text in the exception message is not
  Java's full Unicode upper-casing.
- UnitConverter.ToBytes: a product that overflows a `long` wraps around, as
  Java's multiplication does, rather than being excluded by a precondition.
  The multiplication lemmas state the exact product only where it fits, and
  `OverflowWraps` shows the wrap-around.
- **Iteration order.** The iteration order of `HashSet`s is not modelled. The
  repair resources are taken in the order of the sequence given. The
  configurations' `addAll` adds elements in an arbitrary order, which the
  resulting set does not depend on.
- **Spring wiring.** The `ApplicationContext` and `Config` bean of
  `AbstractRepairConfigurationProvider` are left out; the constructor is given
  the default configuration that the Config bean would yield. The subclass's
  `forTable` is a function given at construction.
- **The built lock factory.** `CASLockFactory` itself is not part of this
  model. `build()` yields the configuration values the new factory is created
  from.
