# torch2pprof core, modelled in Dafny

torch2pprof turns a Chrome/PyTorch trace into a pprof CPU profile. A trace
is a list of interval events: phase, category, name, thread id, start
timestamp and duration. Only complete events (phase "X") with a positive
duration are converted. The converter:

1. groups them by normalised thread id and sorts each thread by start time;
2. rebuilds each event's call stack from the frames left open by the
   events before it, keeping those that end no earlier than it;
3. merges samples with the same stack key (every frame key followed by
   `";"`), counting them and summing their time;
4. writes a pprof profile with an interning builder (strings, functions
   and locations) and a hand-written Protocol Buffers encoder.

A separate analyser counts events and tallies them by category and by
operation name.

The project models these parts:

- `wire.dfy` (modules `Options`, `Wire`): the Protocol Buffers primitives
  the encoder uses. These are base-128 varints, field tags,
  length-delimited framing, packed repeated varints and the UTF-8 bytes of
  strings. Each comes with a reader and a round-trip lemma.
- `profile.dfy` (`ProfileModel`): the pprof message types, the field
  encoders and `Encode`. It also holds a full decoder, with the theorem
  `DecodeProfile(Encode(p)) == Some(p)` for every profile whose signed
  fields fit in int64, the field order and field counts of the output, and
  the frame key `name + "\x00" + file`.
- `builder.dfy` (`ProfileBuilder`): the `Builder` as a class.
  - Its invariant `Valid()` says that the three index maps are exactly the
    inverses of the string, function and location tables, and that every
    reference in the profile resolves.
  - Every method states its whole new state.
- `trace.dfy` (`Trace`): `getTid` and `ProcessThreadEvents`.
  - Each is an imperative method proved equal to a specification
    function.
  - Lemmas state the stack invariant, one sample per event and the
    sample's shape.
  - For properly nested events sorted by start whose ties put the
    enclosing event first, each sample's ancestors are exactly the earlier
    events whose intervals contain it, and a child's sample is its
    innermost parent's sample plus the child. Sorting by start alone does
    not guarantee that tie order (see "Findings").
- `sums.dfy` (`Sums`), `sorting.dfy` (`Sorting`): per-key sums with the
  lemma that summing per-key totals over all keys gives the total, and an
  in-place insertion sort by an integer key (the role of `sort.Slice`).
- `conversion.dfy` (`Conversion`): `ConvertTrace`, in phases:
  - filter and group;
  - sort;
  - walk the threads;
  - aggregate by stack key;
  - emit.
  
  The conservation laws follow from these phases. The sum of the sample
  counts is the number of converted events, and the sum of the sample times
  is their total duration in nanoseconds.
- `analyzer.dfy` (`Analyzer`): `AnalyzeTrace`, `GetSortedCategories` and
  `GetSortedOperations`, with exact counting identities and conservation
  of the listed totals.

Timestamps and durations are integers in microseconds, and
`durNs = dur * 1000`. Strings are `seq<char>`. The encoder writes the UTF-8
bytes of each string. Map keys are modelled literally: a frame key is
`name + "\x00" + cat`, and a stack key is every frame key followed by `";"`.
The worker goroutines and the results channel are modelled sequentially.
The threads are walked in an order the model leaves open (a ghost result
names it). Each thread's samples reach the aggregator in order.

## Model

| member | source | states |
|---|---|---|
| Wire.VarintShape | internal/profile/profile.go:120-128 | a varint has at least one byte; every byte but the last has bit 0x80 set, the last has it clear |
| Wire.EncodeVarint | internal/profile/profile.go:120-128 | the emit-and-shift loop produces exactly the base-128 varint of `v` |
| Wire.VarintRoundTrip | internal/profile/profile.go:120-128 | little-endian base-128 decoding of the varint of `v`, whatever follows, returns `v` and the varint's length |
| Wire.VarintInjective | internal/profile/profile.go:120-128 | different values never share a varint |
| Wire.VarintLength | internal/profile/profile.go:120-128 | a value below 2^(7k) takes at most k bytes |
| Wire.VarintExamples | internal/profile/profile_test.go:192-217 | 0, 1, 127, 128 and 300 encode to [0], [1], [127], [0x80,0x01] and [0xac,0x02] |
| Wire.EncodeTag | internal/profile/profile.go:116-118 | for a wire type below 8, the tag is the varint of `fieldNum * 8 + wireType` |
| Wire.OrShifted | internal/profile/profile.go:117 | OR-ing a value below 2^k into a multiple of 2^k is addition, so shifting the field number left by 3 and OR-ing the wire type gives `8f + w` |
| Wire.FieldRoundTrip | internal/profile/profile.go:57-60 | a field written as tag, then varint length, then payload reads back as the same field and its exact length |
| Wire.FieldsRoundTrip | internal/profile/profile.go:53-114 | a sequence of fields written one after another reads back as the same sequence |
| Wire.PackedRoundTrip | internal/profile/profile.go:141-158 | a packed run of varints reads back as the same values |
| Wire.Utf8RoundTrip | internal/profile/profile.go:84-89 | the UTF-8 bytes of a string-table entry decode back to the string |
| ProfileModel.FrameKeyInjective | internal/profile/profile.go:244 | for names without NUL, two (name, file) pairs share a key iff they are equal |
| ProfileModel.FrameKeyCollision | internal/profile/profile.go:244 | a NUL inside a name lets two different pairs share a key |
| ProfileModel.U64RoundTrip | internal/profile/profile.go:133-135 | the `uint64(x)` conversion of an int64 is two's complement and reversible |
| ProfileModel.EncodeLayout | internal/profile/profile.go:53-114 | the encoded profile parses as exactly the field list of the profile, in the order 1, 2, 4, 5, 6, 9, 10, 11, 12 |
| ProfileModel.EncodeFieldOrder | internal/profile/profile.go:53-114 | field numbers in the output never decrease and are among 1, 2, 4, 5, 6, 9, 10, 11, 12 |
| ProfileModel.EncodeFieldCounts | internal/profile/profile.go:91-111 | one field per sample type, sample, location, function and string; time, duration and period appear iff non-zero, the period type iff present |
| ProfileModel.ValueTypeRoundTrip | internal/profile/profile.go:130-137 | the encoded value type decodes back to itself |
| ProfileModel.SampleRoundTrip | internal/profile/profile.go:139-160 | the encoded sample decodes back to itself; field 1 is present iff there are location ids, field 2 iff there are values |
| ProfileModel.LineRoundTrip | internal/profile/profile.go:175-184 | the encoded line decodes back to itself; field 1 is always present, field 2 iff the line number is non-zero |
| ProfileModel.LocationRoundTrip | internal/profile/profile.go:162-173 | the encoded location decodes back to itself |
| ProfileModel.FunctionRoundTrip | internal/profile/profile.go:186-197 | the encoded function decodes back to itself |
| ProfileModel.DecodeEncode | internal/profile/profile.go:53-114 | every profile whose signed fields fit in int64 decodes back from its encoding unchanged |
| ProfileBuilder.Builder.constructor | internal/profile/profile.go:209-219 | the new builder's string table is [""] with `""` at index 0; no functions, locations or samples; the invariant holds |
| ProfileBuilder.Builder.AddStringLocked | internal/profile/profile.go:270-278 | a known string returns its old index and changes nothing; a new one is appended at the old length; afterwards slot `idx` holds `s` |
| ProfileBuilder.Builder.AddString | internal/profile/profile.go:222-240 | the same interning as AddStringLocked; the table stays free of duplicates and every index stays in range |
| ProfileBuilder.Builder.GetOrCreateFunction | internal/profile/profile.go:243-268 | the same key gives the same id and no change; a new key gets id `len(Function) + 1` with Name and SystemName indexing `name` and Filename indexing `filename` |
| ProfileBuilder.Builder.GetOrCreateLocation | internal/profile/profile.go:281-319 | the same key gives the same id; a new location gets id `len(Location) + 1` and one line numbered 0 naming the function of the same key, which is created only if absent |
| ProfileBuilder.Builder.NewLocationLocked | internal/profile/profile.go:311-318 | the new location is appended with the next dense id and indexed under its key |
| ProfileBuilder.Builder.SetSampleTypes | internal/profile/profile.go:322-329 | one value type per pair is appended, naming that (type, unit) through the string table; nothing else but the string table changes |
| ProfileBuilder.Builder.SetPeriodType | internal/profile/profile.go:332-337 | the period type names (type, unit); nothing else but the string table changes |
| ProfileBuilder.Builder.Build | internal/profile/profile.go:340-342 | returns the profile under construction, every reference of which resolves |
| ProfileBuilder.StringsDistinct | internal/profile/profile.go:236-238 | the interned string table holds no duplicates |
| ProfileBuilder.KeysDistinct | internal/profile/profile.go:258-266 | interned functions have distinct keys, and so do interned locations |
| ProfileBuilder.WellFormedGrows | internal/profile/profile.go:298-318 | appending functions and locations whose references resolve, and strings, keeps every reference in the profile resolving |
| Trace.Wrap64 | internal/converter/trace.go:107 | the int64 result is congruent to the exact value modulo 2^64 |
| Trace.StringHashIsPoly | internal/converter/trace.go:105-109 | the wrapped left fold `h*31 + c` equals the polynomial sum of the code points wrapped once |
| Trace.HashOfTest | internal/converter/converter_test.go:11-32 | `"test"` hashes to t·31³ + e·31² + s·31 + t = 3556498 |
| Trace.GetTid | internal/converter/trace.go:96-113 | integer ids map to themselves, strings to their wrapped base-31 hash, anything else to 0 |
| Trace.PopAndFilter | internal/converter/trace.go:125-139 | the pop loop and the filter loop leave the stack, in order, without ended frames and without frames ending before the event |
| Trace.MakeSample | internal/converter/trace.go:141-169 | names, cats and keys are the retained frames' followed by the event's own; time is `dur * 1000` |
| Trace.ProcessThreadEvents | internal/converter/trace.go:117-173 | the samples emitted are exactly those of the specification walk over the thread's events |
| Trace.PopIsSubsumed | internal/converter/trace.go:126-139 | for an event of positive duration, the pop removes nothing the filter would keep, so the retained frames are the previous stack filtered to `End >= event.End` |
| Trace.EnclosingMembers | internal/converter/trace.go:131-139 | a frame is retained iff it was on the stack and ends no earlier than the event |
| Trace.StackInvariant | internal/converter/trace.go:133-160 | after each step the event is on top, ends never increase from bottom to top, and the stack is no longer than the events processed |
| Trace.ThreadSamplesLength | internal/converter/trace.go:125-169 | one sample per event |
| Trace.ThreadSampleAt | internal/converter/trace.go:125-169 | sample `i` is the one built from event `i` and the stack left by the events before it |
| Trace.ThreadSampleShape | internal/converter/trace.go:141-162 | names, cats and keys all have length retained + 1; the last entry is the event's own; each key is `name + "\x00" + cat`; the ancestors are the previous walk stack's frames that end no earlier than the event |
| Trace.NestedWalkOrder | internal/converter/trace.go:125-139 | properly nested, start-sorted events with enclosing-first ties start no later than every later event and either end before it starts or contain it |
| Trace.RetainedIsAncestry | internal/converter/trace.go:125-139 | for events in that order, the frames kept for the next event are exactly the earlier events whose intervals contain it, in order |
| Trace.NestedSample | internal/converter/trace.go:125-162 | for properly nested, start-sorted events with enclosing-first ties, sample `i` names as ancestors the events before `i` that contain event `i`, then event `i` |
| Trace.ChildExtendsParent | internal/converter/trace.go:125-162 | under the same order, a child's frame keys, names and categories are its innermost parent's with the child appended |
| Trace.TieEvents | internal/converter/trace.go:204-207 | a = [0, 100) and b = [0, 30) start together with b nested in a; of the orders [a, b] and [b, a] only the first puts the enclosing event first |
| Trace.TieOrderLosesParent | internal/converter/trace.go:204-207 | a parent and a shorter child starting together are start-sorted in both orders; parent first the child's sample is [parent, child], child first it is [child] alone |
| Sorting.SortBy | internal/converter/trace.go:204-207 | the array ends sorted by the key and is a permutation of its old contents |
| Conversion.GroupByThread | internal/converter/trace.go:190-200 | each thread's list is its converted events (phase "X", duration > 0, end = ts + dur) in input order; the keys are exactly the threads with such events |
| Conversion.SortThreads | internal/converter/trace.go:202-208 | every thread's list is sorted by start time and is a permutation of its old list; the thread set is unchanged |
| Conversion.GroupAndSort | internal/converter/trace.go:190-208 | each thread's list is a permutation of that thread's converted events, ordered by start time |
| Conversion.RunThreads | internal/converter/trace.go:218-238 | every thread is walked exactly once, in some order, and the stream is their samples thread after thread |
| Conversion.BuildKey | internal/converter/trace.go:245-248 | the key is every frame key followed by ";" |
| Conversion.JoinKeyCollision | internal/converter/trace.go:245-249 | a ';' inside a category lets two different stacks share one key, so their samples merge |
| Conversion.JoinKeyInjective | internal/converter/trace.go:245-249 | when no frame key contains ";", two samples share a map entry iff their stacks are equal |
| Conversion.LocationIdsFor | internal/converter/trace.go:254-261 | location id `n-1-i` is the location of frame `i`, so index 0 is the leaf |
| Conversion.Aggregate | internal/converter/trace.go:240-267 | the map has one entry per distinct stack key, with count = number of samples, time = their summed time, and the first occurrence's location ids |
| Conversion.EmitSamples | internal/converter/trace.go:269-275 | one sample per map entry, in some order, with value `[count, timeNs]` |
| Conversion.NewProfileBuilder | internal/converter/trace.go:210-216 | sample types ("samples","count") and ("time","nanoseconds"), period type ("cpu","nanoseconds"), period 1000000 |
| Conversion.BuildProfile | internal/converter/trace.go:210-277 | the profile is well formed with its metadata; one sample per stack key; counts sum to the stream length, times to the stream's time |
| Conversion.ConvertTrace | internal/converter/trace.go:188-278 | a well-formed profile with fixed metadata, one sample per distinct stack key, counts summing to the converted events and times to their summed `dur * 1000`; an empty conversion gives no samples |
| Conversion.EmittedSamples | internal/converter/trace.go:253-275 | each emitted sample carries its key's count (at least 1), time and leaf-first location ids |
| Conversion.CountAtLeastOne | internal/converter/trace.go:253-266 | a key that occurs has a count of at least 1 |
| Conversion.StreamTotals | internal/converter/trace.go:190-238 | the stream has one sample per converted event and carries their summed duration |
| Conversion.EmissionTotals | internal/converter/trace.go:240-275 | the emitted counts total the stream length and the emitted times the stream time |
| Conversion.DurTotalPerm | internal/converter/trace.go:204-207 | sorting does not change a thread's total duration |
| Analyzer.AnalyzeTrace | internal/converter/analyzer.go:32-69 | total = all events, complete = phase "X", skipped = complete with dur <= 0, converted = the rest; total time = their summed `dur * 1000`; both tallies exact; unique operations = number of distinct converted names |
| Analyzer.CompleteSplit | internal/converter/analyzer.go:43-49 | every complete event is either skipped or converted |
| Analyzer.TallyStep | internal/converter/analyzer.go:53-63 | the read-modify-write of a category or operation entry keeps its count and time exact |
| Analyzer.TallyTotals | internal/converter/analyzer.go:49-63 | tally counts add up to the converted events and tally times to the total time |
| Analyzer.GetSortedCategories | internal/converter/analyzer.go:79-86 | one entry per category, carrying its stats, names distinct, by non-increasing time |
| Analyzer.GetSortedOperations | internal/converter/analyzer.go:96-103 | one entry per operation, carrying its stats, names distinct, by non-increasing time |
| Analyzer.PermutedListing | internal/converter/analyzer.go:84 | sorting a listing keeps it a listing of the same map |
| Analyzer.ListingTotals | internal/converter/analyzer.go:50-63 | the counts of a sorted listing add up to the converted events, its times to the total time |
| Analyzer.ExampleCounters | internal/converter/converter_test.go:172-214 | the test trace has 5 events, 4 complete, 1 skipped, 3 converted, 100000 ns |
| Analyzer.ExampleStats | internal/converter/converter_test.go:205-228 | the test trace has 2 operations, and "cat1" has count 2 and 80000 ns |

## Left out

- Concurrency: the goroutines, the WaitGroup, the results channel, the atomic progress counter and the builder's RWMutex are modelled sequentially. The double-checked lookup under the read and write locks becomes one lookup. `ConvertOptions.NumWorkers` is never read.
- Float semantics: `Ts` and `Dur` are float64 in the source, and `int64(e.Dur * 1000)` truncates. The model uses integer microseconds, where the product is exact.
- Trace.GetTid: a float64 thread id is taken as an integer already in int64 range, so the truncation of `int64(v)` is not modelled.
- int64 overflow of counts, times and total time is not modelled; these are unbounded integers.
- Go map iteration order and the tie order of `sort.Slice`: threads, map entries and sorted entries are specified up to permutation. Equal start times or equal times may come out in any order (for start times this loses parents; see "Findings"). Ids in `ConvertTrace` depend on the arrival order, so id properties are stated on the builder.
- Trace.ProcessThreadEvents: the stack is a value sequence. The in-place compaction through `stack[:0]` and the slice aliasing are not modelled, and the unused `pb` parameter is dropped.
- The event's `pid` field is not modelled; the converter never reads it.
- `LoadTraceFile` (file open, gzip detection, JSON decoding), `cmd/torch2pprof/main.go` and `test/pprof_verification.py` are I/O and are not part of this model.
- Conversion.ConvertTrace: `pb.Build().Period = 1000000` writes into the profile that `Build` returns; the model sets the period on the builder's profile directly.
- Conversion.SortThreads: sorts by start time alone, as written. The enclosing-first tie order is a premise of Trace.NestedSample and Trace.ChildExtendsParent; Conversion.ConvertTrace does not promise it.
- Conversion.ConvertTrace: samples merge by stack key. A ';' inside a name or category can merge two different stacks (Conversion.JoinKeyCollision); the key is not escaped.
- Conversion.EmitSamples and Conversion.Aggregate state their order and ids up to the arrival order, which depends on the scheduler; their contracts use ghost results for that order.

## Findings

| source | as written | input that shows it | evidently intended | confidence | as-written member | corrected member |
|---|---|---|---|---|---|---|
| internal/converter/trace.go:204-207 | each thread is sorted by `Ts` alone with `sort.Slice`, which leaves events starting together in any order; the filter at trace.go:133-139 then drops a parent walked after its child | on one thread a = [0, 100) and b = [0, 30); the order [b, a] is sorted by start, and b's sample is [b] instead of [a, b] | ties broken so that the enclosing (longer) event comes first, after which every child's stack is its parent's plus the child | medium, not executed | Trace.TieOrderLosesParent | Trace.NestedSample |
