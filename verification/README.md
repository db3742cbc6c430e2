# Verified model of the sniper / workin core helpers

This Dafny project models the core of a Java utility repository. At its centre is the
**queue-backed sequence cache** (`QueueCacheSequenceGenerator`):

- For every key it keeps a FIFO queue of numbers fetched in advance from a remote keyspace generator.
- It serves single values (`doGenerateByKey`) and batches (`doBatchGenerateByKey`) from that queue.
- It refills the queue under one of two policies:
  - **Fixed**: fetch `step + 1`, or `step + shortfall`.
  - **Unfixed**: fetch the least multiple of `step` that covers the shortfall.

Around it, the project models the repository's small sequential helpers:

- the count guard and parameter delegation of `AbstractParameterizeGenerator`;
- the leap-year rule, leap-year counting, time-unit table and interval arithmetic of `DateUtils`;
- the integer clamps and null defaults of `NumberUtils`;
- operator lookup and the joined name list of `Operator`;
- the `Content-Disposition` header builder (`ContentDisposition`, the shape of section 4.1 of RFC 6266) and its type table `ContentDispositionTypeEnum`;
- the `O2OStatus` table;
- the insert-if-absent `IgnoreDulicateKeyPuter`.

One Dafny module per source file:

| file | module | form |
|---|---|---|
| `queue_cache.dfy` | `QueueCache` | classes `KeyspaceCounter` (the remote generator, a per-key counter that can be offline) and `QueueCacheSequenceGenerator` (field `cache: map<K, seq<int>>`, ghost bookkeeping `issued`/`origin`, invariant `Valid`) with methods per Java branch; pure batch-size functions |
| `parameterize_generator.dfy` | `ParameterizeGenerators` | class with the `parameter` field; the abstract `generate(P)` and `doBatchGenerate(P, count)` are function-valued fields |
| `date_utils.dfy` | `DateUtils` | functions on integer years and millisecond instants; `getLeapYearCount` as a method with its loop |
| `number_utils.dfy` | `NumberUtils` | functions over newtypes for `byte`, `short`, `int`, `long`, `char` |
| `operator.dfy` | `Operators` | datatype and constant group; `get` and `joinName` as methods with their loops |
| `content_disposition.dfy` | `ContentDispositionHeader` | class with `dtype`, `name`, `filename` fields; `toString` as a method building the string |
| `content_disposition_type.dfy` | `ContentDispositionTypeEnum` | datatype plus lookup map |
| `o2o_status.dfy` | `O2OStatus` | datatype plus lookup map |
| `ignore_duplicate_key_puter.dfy` | `IgnoreDuplicateKeyPuter` | a class holding the caller's map, mutated in place by `Put` |
| `wrappers.dfy`, `ascii.dfy` | `Wrappers`, `Ascii` | `Option` for Java's null, `Result` for a thrown exception; ASCII stand-ins for the string helpers |

Java `null` is `None`. A thrown `IllegalArgumentException` (from `AssertUtils`) is `Failure(IllegalArgument)`. A failure of the remote keyspace generator is `Failure(RemoteError)`.

## Model

Paths are relative to the repository root.

| member | source | states |
|---|---|---|
| QueueCache.SingleBatchCount | sniper-generator/src/main/java/org/sniper/generator/keyspace/QueueCacheSequenceGenerator.java:275-297 | a refill for `next` fetches at least one value; the Fixed poller (`step + 1`) leaves `step` buffered, the Unfixed poller (`step`) leaves `step - 1` |
| QueueCache.BatchCount | sniper-generator/src/main/java/org/sniper/generator/keyspace/QueueCacheSequenceGenerator.java:280-304 | a refill for `count` values fetches at least `count`; Fixed fetches exactly `step` more, Unfixed fetches a multiple of `step` less than `step` beyond `count` |
| QueueCache.UnfixedBatchIsLeast | sniper-generator/src/main/java/org/sniper/generator/keyspace/QueueCacheSequenceGenerator.java:299-304 | the Unfixed size `step·⌈count/step⌉` is the least multiple of `step` that covers `count` |
| QueueCache.NextFetchSize | sniper-generator/src/main/java/org/sniper/generator/keyspace/QueueCacheSequenceGenerator.java:83-86 | `next` fetches nothing while the queue is non-empty, and a refill of `calculateBatchCount()` once it is empty |
| QueueCache.BatchFetchSize | sniper-generator/src/main/java/org/sniper/generator/keyspace/QueueCacheSequenceGenerator.java:109-115 | `batch(count)` fetches nothing when the queue holds `count`; otherwise it fetches enough to cover the shortfall, leaving exactly `step` (Fixed) or fewer than `step` (Unfixed) buffered |
| QueueCache.KeyspaceCounter.BatchGenerateByKey | sniper-generator/src/main/java/org/sniper/generator/keyspace/QueueCacheSequenceGenerator.java:159 | the remote fetch yields exactly `n` consecutive values from the key's counter and advances only that counter; offline, it fails and changes nothing |
| QueueCache.QueueCacheSequenceGenerator.constructor | sniper-generator/src/main/java/org/sniper/generator/keyspace/QueueCacheSequenceGenerator.java:53-57 | `fixQueueCache` selects the Fixed or the Unfixed poller; the cache starts empty and consistent with the remote counters |
| QueueCache.QueueCacheSequenceGenerator.DoGenerateByKey | sniper-generator/src/main/java/org/sniper/generator/keyspace/QueueCacheSequenceGenerator.java:60-90 | the served value followed by the queue left behind equals the old queue followed by the fetched values; a refill happens only on an empty or missing queue; a failed refill leaves the key's queue as it was, and a new key keeps its newly installed empty queue; other keys' queues, counters, issued histories and origins are untouched; the invariant (everything issued plus everything buffered is one contiguous run of the key's counter) is kept |
| QueueCache.QueueCacheSequenceGenerator.CreateQueueAndPoll | sniper-generator/src/main/java/org/sniper/generator/keyspace/QueueCacheSequenceGenerator.java:66-72 | first access installs an empty queue and serves from an immediate refill |
| QueueCache.QueueCacheSequenceGenerator.PollQueue | sniper-generator/src/main/java/org/sniper/generator/keyspace/QueueCacheSequenceGenerator.java:81-89 | an existing queue serves its head, or refills first when empty |
| QueueCache.QueueCacheSequenceGenerator.DoBatchGenerateByKey | sniper-generator/src/main/java/org/sniper/generator/keyspace/QueueCacheSequenceGenerator.java:93-119 | exactly `count` values are served; the values served followed by the queue left behind equal the old queue followed by the fetched values; a failed refill leaves the key's queue as it was, and a new key keeps its newly installed empty queue; other keys' queues, counters, issued histories and origins are untouched; the invariant is kept |
| QueueCache.QueueCacheSequenceGenerator.CreateQueueAndBatchPoll | sniper-generator/src/main/java/org/sniper/generator/keyspace/QueueCacheSequenceGenerator.java:99-102 | first batch access installs an empty queue and serves from an immediate refill |
| QueueCache.QueueCacheSequenceGenerator.BatchPollQueue | sniper-generator/src/main/java/org/sniper/generator/keyspace/QueueCacheSequenceGenerator.java:109-118 | a queue that holds `count` is drained from the head; a shorter one is topped up |
| QueueCache.QueueCacheSequenceGenerator.CacheAndPoll | sniper-generator/src/main/java/org/sniper/generator/keyspace/QueueCacheSequenceGenerator.java:158-168 | returns the first fetched value and appends all the others to the queue, advancing the counter by the fetch size |
| QueueCache.QueueCacheSequenceGenerator.CacheAndBatchPoll | sniper-generator/src/main/java/org/sniper/generator/keyspace/QueueCacheSequenceGenerator.java:178-188 | returns the first `count` fetched values and appends the rest to the queue |
| QueueCache.QueueCacheSequenceGenerator.CacheAndBatchPollRemain | sniper-generator/src/main/java/org/sniper/generator/keyspace/QueueCacheSequenceGenerator.java:201-232 | returns the whole old queue followed by the first `count - remain` fetched values; the queue keeps the rest; the fetch comes before the drain, so a failed fetch leaves the queue intact |
| QueueCache.QueueCacheSequenceGenerator.BatchPoll | sniper-generator/src/main/java/org/sniper/generator/keyspace/QueueCacheSequenceGenerator.java:242-250 | dequeues exactly the first `count` values in FIFO order and leaves the rest queued |
| QueueCache.BatchServedIsFifo | sniper-generator/src/main/java/org/sniper/generator/keyspace/QueueCacheSequenceGenerator.java:222-228 | a batch is the first `count` values of old queue then fetched values; the queue keeps the remainder |
| QueueCache.RefillLeavesBuffered | sniper-generator/src/main/java/org/sniper/generator/keyspace/QueueCacheSequenceGenerator.java:128-136 | after a batch that refilled, Fixed leaves exactly `step` values buffered and Unfixed fewer than `step` |
| QueueCache.IssuedStrictlyIncreasing | sniper-generator/src/main/java/org/sniper/generator/keyspace/QueueCacheSequenceGenerator.java:60-119 | for each key, the values handed out are strictly increasing, all below every value still buffered, so none is handed out twice |
| QueueCache.DocumentedBatchSizes | sniper-generator/src/main/java/org/sniper/generator/keyspace/QueueCacheSequenceGenerator.java:128-136 | the documented examples, each with the fetch size and the count left buffered (buffered + fetched − served): Fixed step 5 with 10 wanted fetches 15 and keeps 5; Fixed `next` fetches 6 and keeps 5; Unfixed step 3 with 2 buffered and 5 wanted fetches 3 and keeps none; Unfixed step 3 with 5 wanted from empty fetches 6 and keeps 1 |
| QueueCache.FixedPolicyScenario | sniper-generator/src/main/java/org/sniper/generator/keyspace/QueueCacheSequenceGenerator.java:275-283 | with step 5, a caller gets 1, then 2..11, then 12 |
| ParameterizeGenerators.ParameterizeGenerator.SetParameter | sniper-generator/src/main/java/org/sniper/generator/AbstractParameterizeGenerator.java:40-42 | the stored parameter becomes the given one, and `getParameter` returns it |
| ParameterizeGenerators.ParameterizeGenerator.Generate | sniper-generator/src/main/java/org/sniper/generator/AbstractParameterizeGenerator.java:44-47 | generation uses the stored parameter |
| ParameterizeGenerators.ParameterizeGenerator.BatchGenerateWith | sniper-generator/src/main/java/org/sniper/generator/AbstractParameterizeGenerator.java:54-59 | fails with an illegal argument exactly when `count <= 0`, and otherwise delegates to `doBatchGenerate` |
| ParameterizeGenerators.ParameterizeGenerator.BatchGenerate | sniper-generator/src/main/java/org/sniper/generator/AbstractParameterizeGenerator.java:49-52 | the guarded batch with the stored parameter |
| ParameterizeGenerators.SetThenBatch | sniper-generator/src/main/java/org/sniper/generator/AbstractParameterizeGenerator.java:40-59 | after `setParameter(p)`, `batchGenerate(count)` is the batch for `p`, or the guard's failure |
| DateUtils.IsLeapYear | workin-commons/src/main/java/org/workin/commons/util/DateUtils.java:482-484 | a year not divisible by 4 is never leap; one divisible by 4 but not by 100 always is; a century year is leap exactly when divisible by 400 |
| DateUtils.LeapYearExamples | workin-commons/src/main/java/org/workin/commons/util/DateUtils.java:482-484 | 2000 and 2024 are leap years, 1900 and 2023 are not |
| DateUtils.GetLeapYearCount | workin-commons/src/main/java/org/workin/commons/util/DateUtils.java:493-513 | with one year null, 1 or 0 for the other year; with both null, 0; otherwise the number of leap years in the closed range between the two years, in either order |
| DateUtils.LeapYearsInClosedForm | workin-commons/src/main/java/org/workin/commons/util/DateUtils.java:482-484 | the leap years from `lo` to `hi` number `F(hi) - F(lo - 1)` with `F(n) = n/4 - n/100 + n/400` |
| DateUtils.LeapYearsPer400 | workin-commons/src/main/java/org/workin/commons/util/DateUtils.java:482-484 | any 400 consecutive years hold exactly 97 leap years |
| DateUtils.UnitTableConsistent | workin-commons/src/main/java/org/workin/commons/util/DateUtils.java:76-115 | the unit table agrees with the calendar: 1000 ms a second, 60 s a minute, 60 min an hour, 24 h a day, 7 days a week, months of 28 to 31 days, years of 365 and 366 days |
| DateUtils.UnitMillis | workin-commons/src/main/java/org/workin/commons/util/DateUtils.java:327-330 | a known unit counts as its table entry; an unknown or null unit counts as one millisecond; every unit is at least one millisecond |
| DateUtils.GetMillis | workin-commons/src/main/java/org/workin/commons/util/DateUtils.java:339-341 | the result is an exact multiple of the unit's milliseconds and dividing it by them gives back `time`; the sign and zero-ness of `time` are kept, and a millisecond unit leaves it unchanged |
| DateUtils.GetSecond | workin-commons/src/main/java/org/workin/commons/util/DateUtils.java:350-352 | whole seconds truncated toward zero: the result times 1000 is within one second of the milliseconds and never beyond them |
| DateUtils.ConversionExamples | workin-commons/src/main/java/org/workin/commons/util/DateUtils.java:339-352 | `t` minutes are `60t` seconds; `-1500` ms is `-1` second (truncation, not flooring); an unknown unit is milliseconds |
| DateUtils.GetIntervalMillis | workin-commons/src/main/java/org/workin/commons/util/DateUtils.java:260-264 | fails exactly when an instant is null; otherwise the absolute difference |
| DateUtils.IntervalSymmetric | workin-commons/src/main/java/org/workin/commons/util/DateUtils.java:260-264 | the distance does not depend on the order of the instants |
| DateUtils.GetIntervalSecond | workin-commons/src/main/java/org/workin/commons/util/DateUtils.java:273-275 | the number of whole seconds that fit into the distance; fails exactly on null |
| DateUtils.GetIntervalMinute | workin-commons/src/main/java/org/workin/commons/util/DateUtils.java:284-286 | the number of whole minutes that fit into the distance; fails exactly on null |
| DateUtils.GetIntervalHour | workin-commons/src/main/java/org/workin/commons/util/DateUtils.java:295-297 | the number of whole hours that fit into the distance; fails exactly on null |
| DateUtils.GetIntervalDay | workin-commons/src/main/java/org/workin/commons/util/DateUtils.java:306-308 | the number of whole days that fit into the distance; fails exactly on null |
| DateUtils.GetIntervalWeek | workin-commons/src/main/java/org/workin/commons/util/DateUtils.java:317-319 | the number of whole weeks that fit into the distance; fails exactly on null |
| DateUtils.IntervalUnitsNest | workin-commons/src/main/java/org/workin/commons/util/DateUtils.java:273-319 | the counts nest: weeks·7 ≤ days, days·24 ≤ hours, hours·60 ≤ minutes, minutes·60 ≤ seconds |
| DateUtils.IsSameDay | workin-commons/src/main/java/org/workin/commons/util/DateUtils.java:236-241 | as written: true exactly when both instants are present and less than 24 hours apart |
| DateUtils.IsSameDayCounterexamples | workin-commons/src/main/java/org/workin/commons/util/DateUtils.java:236-241 | two instants 1 ms apart across midnight count as the same day, and the relation is not transitive |
| DateUtils.SameCalendarDayProperties | workin-commons/src/main/java/org/workin/commons/util/DateUtils.java:229-241 | the calendar-day relation is transitive and implies the as-written relation |
| NumberUtils.MinLimit | workin-commons/src/main/java/org/workin/commons/util/NumberUtils.java:244-246 | the result is the larger of value and limit |
| NumberUtils.MaxLimit | workin-commons/src/main/java/org/workin/commons/util/NumberUtils.java:321-323 | the result is the smaller of value and limit |
| NumberUtils.MinLimitInt | workin-commons/src/main/java/org/workin/commons/util/NumberUtils.java:244-246 | `int` overload: the larger of the two, within the type's range |
| NumberUtils.MinLimitLong | workin-commons/src/main/java/org/workin/commons/util/NumberUtils.java:255-257 | `long` overload: the larger of the two |
| NumberUtils.MinLimitShort | workin-commons/src/main/java/org/workin/commons/util/NumberUtils.java:266-268 | `short` overload: the larger of the two |
| NumberUtils.MinLimitByte | workin-commons/src/main/java/org/workin/commons/util/NumberUtils.java:277-279 | `byte` overload: the larger of the two |
| NumberUtils.MinLimitChar | workin-commons/src/main/java/org/workin/commons/util/NumberUtils.java:288-290 | `char` overload: the larger code unit of the two |
| NumberUtils.MaxLimitInt | workin-commons/src/main/java/org/workin/commons/util/NumberUtils.java:321-323 | `int` overload: the smaller of the two |
| NumberUtils.MaxLimitLong | workin-commons/src/main/java/org/workin/commons/util/NumberUtils.java:332-334 | `long` overload: the smaller of the two |
| NumberUtils.MaxLimitShort | workin-commons/src/main/java/org/workin/commons/util/NumberUtils.java:343-345 | `short` overload: the smaller of the two |
| NumberUtils.MaxLimitByte | workin-commons/src/main/java/org/workin/commons/util/NumberUtils.java:354-356 | `byte` overload: the smaller of the two |
| NumberUtils.MaxLimitChar | workin-commons/src/main/java/org/workin/commons/util/NumberUtils.java:365-367 | `char` overload: the smaller code unit of the two |
| NumberUtils.LimitFixedPoints | workin-commons/src/main/java/org/workin/commons/util/NumberUtils.java:244-367 | a clamp leaves a value unchanged exactly when it is already on the allowed side of the limit |
| NumberUtils.LimitIdempotent | workin-commons/src/main/java/org/workin/commons/util/NumberUtils.java:244-367 | clamping twice to one limit is clamping once |
| NumberUtils.ClampBetween | workin-commons/src/main/java/org/workin/commons/util/NumberUtils.java:244-367 | `maxLimit(minLimit(x, lo), hi)` lies in `[lo, hi]`, keeps values already there, and equals the other order of clamping |
| NumberUtils.LimitMonotonic | workin-commons/src/main/java/org/workin/commons/util/NumberUtils.java:244-367 | both clamps preserve order |
| NumberUtils.Safe | workin-commons/src/main/java/org/workin/commons/util/NumberUtils.java:88-90 | the two-argument accessors give the value when present, else the default |
| NumberUtils.SafeInteger | workin-commons/src/main/java/org/workin/commons/util/NumberUtils.java:77-79 | a present `Integer` is returned as is; null becomes 0 |
| NumberUtils.SafeLong | workin-commons/src/main/java/org/workin/commons/util/NumberUtils.java:98-100 | a present `Long` is returned as is; null becomes 0 |
| NumberUtils.SafeShort | workin-commons/src/main/java/org/workin/commons/util/NumberUtils.java:119-121 | a present `Short` is returned as is; null becomes 0 |
| NumberUtils.SafeByte | workin-commons/src/main/java/org/workin/commons/util/NumberUtils.java:140-142 | a present `Byte` is returned as is; null becomes 0 |
| NumberUtils.SafeDefaultsToZero | workin-commons/src/main/java/org/workin/commons/util/NumberUtils.java:77-153 | `safeInteger`, `safeLong`, `safeShort` and `safeByte` keep a present value and turn null into 0 |
| NumberUtils.SafeIgnoresDefault | workin-commons/src/main/java/org/workin/commons/util/NumberUtils.java:88-153 | a present value does not depend on the default; defaulting twice is defaulting once |
| Operators.KeysDistinct | workin-persistence/src/main/java/org/workin/persistence/util/Operator.java:66-75 | the group holds eight operators with pairwise distinct keys |
| Operators.FirstWithKey | workin-persistence/src/main/java/org/workin/persistence/util/Operator.java:97-101 | the scan finds an operator of the group carrying the key exactly when the key occurs; a null name matches nothing |
| Operators.Scan | workin-persistence/src/main/java/org/workin/persistence/util/Operator.java:97-101 | the loop stops at the first operator of the sequence whose key equals the name, and yields null when none does or the name is null |
| Operators.Get | workin-persistence/src/main/java/org/workin/persistence/util/Operator.java:92-102 | returns the operator whose key is the trimmed, upper-cased name, or null when the name is null or no key matches |
| Operators.Exist | workin-persistence/src/main/java/org/workin/persistence/util/Operator.java:110-112 | true exactly when the normalised name is one of the keys |
| Operators.LookupRoundTrip | workin-persistence/src/main/java/org/workin/persistence/util/Operator.java:92-102 | every operator is found again from its own key |
| Operators.LookupIgnoresBlanksAndCase | workin-persistence/src/main/java/org/workin/persistence/util/Operator.java:93-95 | `get(" eq ")` is `EQ` |
| Operators.LookupMisses | workin-persistence/src/main/java/org/workin/persistence/util/Operator.java:97-101 | an unknown name and null give null |
| Operators.JoinName | workin-persistence/src/main/java/org/workin/persistence/util/Operator.java:119-126 | the keys in group order, comma-separated, without a trailing comma; splitting the result at the commas gives the keys back |
| Operators.JoinedKeys | workin-persistence/src/main/java/org/workin/persistence/util/Operator.java:119-126 | the joined list is `EQ,LT,LE,GT,GE,LIKE,LLIKE,RLIKE` |
| Operators.SplitJoin | workin-persistence/src/main/java/org/workin/persistence/util/Operator.java:119-126 | for keys without commas, splitting the joined text recovers the keys |
| ContentDispositionHeader.ContentDisposition.constructor | sniper-http/src/main/java/org/sniper/http/headers/ContentDisposition.java:65-69 | corrected three-argument constructor: type, name and file name stored as given |
| ContentDispositionHeader.ContentDisposition.AsWritten | sniper-http/src/main/java/org/sniper/http/headers/ContentDisposition.java:65-69 | as written: the file name is stored as the name too |
| ContentDispositionHeader.ContentDisposition.Default | sniper-http/src/main/java/org/sniper/http/headers/ContentDisposition.java:45-47 | inline, no name, no file name |
| ContentDispositionHeader.ContentDisposition.OfType | sniper-http/src/main/java/org/sniper/http/headers/ContentDisposition.java:49-51 | the given type, no name, no file name |
| ContentDispositionHeader.ContentDisposition.OfFilename | sniper-http/src/main/java/org/sniper/http/headers/ContentDisposition.java:53-55 | (corrected) inline, no name, the given file name |
| ContentDispositionHeader.ContentDisposition.AsWrittenOfFilename | sniper-http/src/main/java/org/sniper/http/headers/ContentDisposition.java:53-55 | as written: inline, with the file name stored as both name and file name |
| ContentDispositionHeader.ContentDisposition.OfNameAndFilename | sniper-http/src/main/java/org/sniper/http/headers/ContentDisposition.java:57-59 | (corrected) inline with the given name and file name |
| ContentDispositionHeader.ContentDisposition.AsWrittenOfNameAndFilename | sniper-http/src/main/java/org/sniper/http/headers/ContentDisposition.java:57-59 | as written: inline, the name passed is lost and the file name is stored as both |
| ContentDispositionHeader.ContentDisposition.OfTypeAndFilename | sniper-http/src/main/java/org/sniper/http/headers/ContentDisposition.java:61-63 | (corrected) the given type and file name, no name |
| ContentDispositionHeader.ContentDisposition.AsWrittenOfTypeAndFilename | sniper-http/src/main/java/org/sniper/http/headers/ContentDisposition.java:61-63 | as written: the given type, with the file name stored as both name and file name |
| ContentDispositionHeader.ContentDisposition.SetType | sniper-http/src/main/java/org/sniper/http/headers/ContentDisposition.java:75-78 | a null type fails with an illegal argument and leaves the type unchanged; otherwise the type is replaced |
| ContentDispositionHeader.ContentDisposition.SetName | sniper-http/src/main/java/org/sniper/http/headers/ContentDisposition.java:84-86 | the name is replaced |
| ContentDispositionHeader.ContentDisposition.SetFilename | sniper-http/src/main/java/org/sniper/http/headers/ContentDisposition.java:92-94 | the file name is replaced |
| ContentDispositionHeader.ContentDisposition.ToString | sniper-http/src/main/java/org/sniper/http/headers/ContentDisposition.java:96-107 | the built string is the header of the current fields: mode, then `;name="…"` when the name is not blank, then `;filename="…"` when the file name is not blank |
| ContentDispositionHeader.HeaderStartsWithMode | sniper-http/src/main/java/org/sniper/http/headers/ContentDisposition.java:98 | the header always begins with the type's mode |
| ContentDispositionHeader.HeaderOfBlanks | sniper-http/src/main/java/org/sniper/http/headers/ContentDisposition.java:100-106 | with both name and file name blank, the header is the mode alone |
| ContentDispositionHeader.HeaderNameParameter | sniper-http/src/main/java/org/sniper/http/headers/ContentDisposition.java:100-101 | `;name="` follows the mode exactly when the name is not blank |
| ContentDispositionHeader.ParseHeaderRoundTrip | sniper-http/src/main/java/org/sniper/http/headers/ContentDisposition.java:96-107 | reading a header back yields its type, the name when not blank and the file name when not blank, in that order, provided no value holds a double quote |
| ContentDispositionHeader.AsWrittenDropsName | sniper-http/src/main/java/org/sniper/http/headers/ContentDisposition.java:65-69 | with the as-written constructor, the name `upload` is lost: the header reads back name `a.txt` |
| ContentDispositionHeader.AsWrittenShortConstructors | sniper-http/src/main/java/org/sniper/http/headers/ContentDisposition.java:53-69 | as written, `("a.txt")`, `("upload", "a.txt")` and `(ATTACHMENT, "a.txt")` all render `name="a.txt"`; the second one's header reads back name `a.txt`, not `upload` |
| ContentDispositionHeader.CorrectedKeepsName | sniper-http/src/main/java/org/sniper/http/headers/ContentDisposition.java:65-69 | with the corrected constructor, the header reads back name `upload` and file name `a.txt` |
| ContentDispositionTypeEnum.DispositionType.Mode | sniper-commons/src/main/java/org/sniper/commons/enums/http/ContentDispositionTypeEnum.java:33-39 | every mode is non-empty, lower-case and free of `;` |
| ContentDispositionTypeEnum.ModesDistinct | sniper-commons/src/main/java/org/sniper/commons/enums/http/ContentDispositionTypeEnum.java:33-39 | the three modes are pairwise distinct |
| ContentDispositionTypeEnum.Resolve | sniper-commons/src/main/java/org/sniper/commons/enums/http/ContentDispositionTypeEnum.java:76-78 | null resolves to null; a resolved type's mode is the lower-cased input |
| ContentDispositionTypeEnum.ResolveRoundTrip | sniper-commons/src/main/java/org/sniper/commons/enums/http/ContentDispositionTypeEnum.java:46-50 | every type resolves back from its own mode |
| ContentDispositionTypeEnum.DispositionType.Matches | sniper-commons/src/main/java/org/sniper/commons/enums/http/ContentDispositionTypeEnum.java:66-68 | a name matches exactly when it is present and its lower-case form is the type's mode; null never matches |
| ContentDispositionTypeEnum.MatchesIffResolves | sniper-commons/src/main/java/org/sniper/commons/enums/http/ContentDispositionTypeEnum.java:66-68 | a name matches a type (ignoring case) exactly when it resolves to that type |
| ContentDispositionTypeEnum.ResolveIgnoresCase | sniper-commons/src/main/java/org/sniper/commons/enums/http/ContentDispositionTypeEnum.java:76-78 | names equal up to case resolve alike |
| ContentDispositionTypeEnum.ResolveExamples | sniper-commons/src/main/java/org/sniper/commons/enums/http/ContentDispositionTypeEnum.java:76-78 | `Inline` resolves to the inline type; null to null |
| O2OStatus.Status.Key | sniper-commons/src/main/java/org/sniper/commons/enums/status/O2OStatus.java:52-55 | the key is 0 or 1 and no other status has it, so the key-to-status table is well defined |
| O2OStatus.Resolve | sniper-commons/src/main/java/org/sniper/commons/enums/status/O2OStatus.java:85-87 | a resolved status carries the given key; the result is null exactly for keys other than 0 and 1 |
| O2OStatus.ResolveRoundTrip | sniper-commons/src/main/java/org/sniper/commons/enums/status/O2OStatus.java:40-44 | every status resolves back from its own key |
| O2OStatus.Status.Matches | sniper-commons/src/main/java/org/sniper/commons/enums/status/O2OStatus.java:75-77 | a key matches exactly when it is the status's ordinal, so only 0 and 1 ever match |
| O2OStatus.MatchesIffResolves | sniper-commons/src/main/java/org/sniper/commons/enums/status/O2OStatus.java:75-77 | a key matches a status exactly when it resolves to that status |
| IgnoreDuplicateKeyPuter.PutIfAbsent | workin-spring/src/main/java/org/workin/spring/puter/IgnoreDulicateKeyPuter.java:31-34 | a present key leaves the map unchanged; an absent key is added with the value; every other entry is kept |
| IgnoreDuplicateKeyPuter.Put | workin-spring/src/main/java/org/workin/spring/puter/IgnoreDulicateKeyPuter.java:31-34 | the caller's map is updated in place to the insert-if-absent of its old contents |
| IgnoreDuplicateKeyPuter.PutIdempotent | workin-spring/src/main/java/org/workin/spring/puter/IgnoreDulicateKeyPuter.java:31-34 | repeating a put changes nothing more |
| IgnoreDuplicateKeyPuter.FirstValueWins | workin-spring/src/main/java/org/workin/spring/puter/IgnoreDulicateKeyPuter.java:32-33 | after any sequence of puts, a key keeps its old value, or else holds the first value offered for it |
| IgnoreDuplicateKeyPuter.PutsCommute | workin-spring/src/main/java/org/workin/spring/puter/IgnoreDulicateKeyPuter.java:31-34 | puts under different keys commute |
| IgnoreDuplicateKeyPuter.FirstPutWins | workin-spring/src/main/java/org/workin/spring/puter/IgnoreDulicateKeyPuter.java:31-34 | putting `timeout` 30, `retries` 3, then `timeout` 60 leaves `timeout` at 30 |

## Left out

- Locking and thread safety in `QueueCacheSequenceGenerator`: the per-key lock, the double-checked queue creation and the concurrent queue. Each operation is one atomic step.
- `AbstractCacheableGenerator` and `ParameterizeLock` are not part of this model. They supply `cache`, the step size and the public `generate`/`batchGenerate` entry points. The step size is a positive constant of the generator.
- The remote `KeyspaceGenerator` is not part of this model. It is a per-key counter that returns exactly `n` consecutive integers or fails as a whole. Values are integers, not an arbitrary `V`.
- QueueCache.QueueCacheSequenceGenerator.DoBatchGenerateByKey: requires `count > 0`. The positive-count guard lives in the generator base class (`ParameterizeGenerators.ParameterizeGenerator.BatchGenerateWith`).
- QueueCache.QueueCacheSequenceGenerator.BatchPoll: requires `count` not to exceed the queue length. Java would poll `null` past the end, but both callers only ask for values the queue holds.
- ParameterizeGenerators.ParameterizeGenerator: `generate(P)` and `doBatchGenerate(P, count)` are pure functions here. A stateful subclass, such as the queue cache, is modelled on its own.
- Logger calls: side-effect-only logging.
- `DateUtils` Calendar and `SimpleDateFormat` parts:
  - `isLeapYear(Date)` and the year formatting inside `getLeapYearCount` (years are given as integers);
  - string/date conversion, week days, `getOffsetDay`, `getLeapYears`;
  - `isToday` (it reads the clock).
- QueueCache.SingleBatchCount: Java computes `step + 1` in 32-bit `int`, which wraps negative for a step of `Integer.MAX_VALUE`. Integers here are unbounded, so that wrap-around and the negative fetch size it would request are not modelled.
- QueueCache.BatchCount: Java computes `step + count` and `step * ⌈count/step⌉` in 32-bit `int`, which wrap negative for a `count` within about one step of `Integer.MAX_VALUE`. Integers here are unbounded, so the wrapped, negative fetch sizes are not modelled.
- QueueCache.BatchFetchSize: the shortfall `count - queueRemain` and the batch size built from it are 32-bit `int` in Java. The same wrap-around is not modelled.
- DateUtils.GetMillis, DateUtils.GetIntervalMillis, DateUtils.GetSecond: Java `long` overflow of `time * unit` and of the difference of two instants is not modelled. Integers are unbounded.
- `NumberUtils` `float`/`double` overloads and `randomIn`: floating point and randomness.
- ContentDispositionHeader.ContentDisposition.OfFilename: modelled through the corrected three-argument constructor. As written, the file name is also stored as the name (`AsWrittenOfFilename`).
- ContentDispositionHeader.ContentDisposition.OfNameAndFilename: modelled through the corrected three-argument constructor. As written, the name is replaced by the file name (`AsWrittenOfNameAndFilename`).
- ContentDispositionHeader.ContentDisposition.OfTypeAndFilename: modelled through the corrected three-argument constructor. As written, the file name is also stored as the name (`AsWrittenOfTypeAndFilename`).
- ContentDispositionHeader.ContentDisposition constructors take a non-null type. A null type makes Java's constructor throw, and a constructor here cannot fail. `SetType` models the null check.
- Getters (`getType`, `getName`, `getFilename`, `getParameter`, `getValue`, `Operator.getAll`) are plain field reads.
- `O2OStatus.getMessage` is not modelled: it calls into a message bundle that is not part of this model.
- `StringUtils` is not part of this model. The model assumes the following:
  - `trim` cuts characters up to the space and keeps `null` as `null`;
  - `isBlank`/`isNotBlank` test `null`, empty or whitespace-only, where whitespace is ASCII whitespace only (space, tab to carriage return, and the four separators 28-31); Unicode spaces are not blank here;
  - `toUpperCase`, `toLowerCase` and `equalsIgnoreCase` change ASCII letters only (no locale-sensitive case mapping).
- Header values are not quoted or escaped by the source; `ParseHeaderRoundTrip` is stated for values without a double quote.

## Findings

| source | as written | input that shows it | evidently intended | confidence | as-written member | corrected member |
|---|---|---|---|---|---|---|
| sniper-http/src/main/java/org/sniper/http/headers/ContentDisposition.java:65-69 | the three-argument constructor calls `setName(filename)`, so `name` is discarded and the file name is written as the form-field name (every shorter constructor that takes a file name delegates to it and inherits the slip) | `new ContentDisposition(ATTACHMENT, "upload", "a.txt")` renders `attachment;name="a.txt";filename="a.txt"` | `setName(name)`: the header carries `name="upload"` | high, not executed | ContentDispositionHeader.AsWrittenDropsName | ContentDispositionHeader.CorrectedKeepsName |
| workin-commons/src/main/java/org/workin/commons/util/DateUtils.java:236-241 | `isSameDay` tests whether two instants are less than 24 hours apart | instants 86399999 and 86400000 (1 ms apart across midnight UTC) count as the same day; 0 ~ 50000000 and 50000000 ~ 100000000 but not 0 ~ 100000000 | both instants fall on the same calendar day of one time zone, an equivalence relation | medium, not executed | DateUtils.IsSameDayCounterexamples | DateUtils.SameCalendarDayProperties |
