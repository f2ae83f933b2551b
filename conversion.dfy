// ConvertTrace of internal/converter/trace.go: filter the events, group them
// per thread, sort each thread by start time, walk every thread, merge the
// samples by stack key into the builder's profile, and emit one pprof sample
// per key. The worker goroutines and the results channel are sequential
// here: the threads are walked one after another, in an arbitrary order,
// and their samples reach the aggregator thread by thread.

module Conversion {
  import opened ProfileModel
  import opened ProfileBuilder
  import opened Sums
  import opened Sorting
  import opened Trace

  // ---------------------------------------------------------------------
  // Filtering and grouping

  /** Kept for conversion: a complete ("X") event with a positive duration. */
  predicate Converted(e: TraceEvent)
  {
    e.ph == "X" && e.dur > 0
  }

  function WithEnd(e: TraceEvent): EventWithEnd
  {
    EventWithEnd(e, e.ts + e.dur)
  }

  /** The converted events, in input order, with their end times. */
  function Kept(events: seq<TraceEvent>): seq<EventWithEnd>
  {
    if events == [] then []
    else
      var e := events[|events| - 1];
      Kept(events[..|events| - 1]) + (if Converted(e) then [WithEnd(e)] else [])
  }

  /** The converted events of thread `t`, in input order. */
  function ThreadOf(events: seq<TraceEvent>, t: int64): seq<EventWithEnd>
  {
    if events == [] then []
    else
      var e := events[|events| - 1];
      ThreadOf(events[..|events| - 1], t) + (if Converted(e) && TidOf(e.tid) == t then [WithEnd(e)] else [])
  }

  /** One (thread, 1) pair per converted event. */
  function TidCounts(events: seq<TraceEvent>): seq<(int64, int)>
  {
    if events == [] then []
    else
      var e := events[|events| - 1];
      TidCounts(events[..|events| - 1]) + (if Converted(e) then [(TidOf(e.tid), 1)] else [])
  }

  /** One (thread, nanoseconds) pair per converted event. */
  function TidTimes(events: seq<TraceEvent>): seq<(int64, int)>
  {
    if events == [] then []
    else
      var e := events[|events| - 1];
      TidTimes(events[..|events| - 1]) + (if Converted(e) then [(TidOf(e.tid), DurNs(e))] else [])
  }

  /** The threads that have converted events. */
  ghost function Tids(events: seq<TraceEvent>): set<int64>
  {
    KeySet(TidCounts(events))
  }

  /** The summed duration, in nanoseconds, of a list of events. */
  function DurTotal(es: seq<EventWithEnd>): int
  {
    if es == [] then 0 else DurTotal(es[..|es| - 1]) + DurNs(es[|es| - 1].event)
  }

  /** The grouping after one more event: a converted event joins the end of its thread's list. */
  function Group(threads: map<int64, seq<EventWithEnd>>, e: TraceEvent): map<int64, seq<EventWithEnd>>
  {
    if !Converted(e) then threads
    else
      var t := TidOf(e.tid);
      threads[t := (if t in threads then threads[t] else []) + [WithEnd(e)]]
  }

  /** The grouping of `events` as a map from thread to its list. */
  ghost predicate GroupedAs(events: seq<TraceEvent>, threads: map<int64, seq<EventWithEnd>>)
  {
    && threads.Keys == Tids(events)
    && forall t :: ThreadOf(events, t) == (if t in threads then threads[t] else [])
  }

  lemma ThreadOfSnoc(pre: seq<TraceEvent>, e: TraceEvent, t: int64)
    ensures ThreadOf(pre + [e], t) == ThreadOf(pre, t) + (if Converted(e) && TidOf(e.tid) == t then [WithEnd(e)] else [])
  {
    assert (pre + [e])[..|pre|] == pre;
  }

  lemma TidsSnoc(pre: seq<TraceEvent>, e: TraceEvent)
    ensures Tids(pre + [e]) == Tids(pre) + (if Converted(e) then {TidOf(e.tid)} else {})
  {
    assert (pre + [e])[..|pre|] == pre;
    if Converted(e) {
      var ps := TidCounts(pre);
      assert TidCounts(pre + [e]) == ps + [(TidOf(e.tid), 1)];
      assert (ps + [(TidOf(e.tid), 1)])[..|ps|] == ps;
    } else {
      assert TidCounts(pre + [e]) == TidCounts(pre) + [];
      assert TidCounts(pre) + [] == TidCounts(pre);
    }
  }

  lemma GroupStep(pre: seq<TraceEvent>, e: TraceEvent, threads: map<int64, seq<EventWithEnd>>)
    requires GroupedAs(pre, threads)
    ensures GroupedAs(pre + [e], Group(threads, e))
  {
    TidsSnoc(pre, e);
    var g := Group(threads, e);
    forall t ensures ThreadOf(pre + [e], t) == (if t in g then g[t] else []) {
      ThreadOfSnoc(pre, e, t);
    }
  }

  /**
    * Groups the converted events by normalised thread id; each thread's
    * list keeps input order.
    */
  method GroupByThread(events: seq<TraceEvent>) returns (threads: map<int64, seq<EventWithEnd>>)
    ensures GroupedAs(events, threads)
  {
    threads := map[];
    for i := 0 to |events|
      invariant GroupedAs(events[..i], threads)
    {
      assert events[..i + 1] == events[..i] + [events[i]];
      var e := events[i];
      GroupStep(events[..i], e, threads);
      if e.ph != "X" || e.dur <= 0 {
        continue;
      }
      var tid := GetTid(e.tid);
      var cur := if tid in threads then threads[tid] else [];
      threads := threads[tid := cur + [WithEnd(e)]];
    }
    assert events[..|events|] == events;
  }

  function StartTime(e: EventWithEnd): int
  {
    e.event.ts
  }

  /** Sorts every thread's events by start time. */
  method SortThreads(threads: map<int64, seq<EventWithEnd>>) returns (sorted: map<int64, seq<EventWithEnd>>)
    ensures sorted.Keys == threads.Keys
    ensures forall t :: t in sorted ==>
      SortedBy(sorted[t], StartTime) && multiset(sorted[t]) == multiset(threads[t])
  {
    sorted := threads;
    var rest := threads.Keys;
    while rest != {}
      invariant rest <= threads.Keys && sorted.Keys == threads.Keys
      invariant forall t :: t in sorted ==> multiset(sorted[t]) == multiset(threads[t])
      invariant forall t :: t in sorted && t !in rest ==> SortedBy(sorted[t], StartTime)
      decreases |rest|
    {
      var t :| t in rest;
      var events := sorted[t];
      var a := new EventWithEnd[|events|](j requires 0 <= j < |events| => events[j]);
      assert a[..] == events;
      SortBy(a, StartTime);
      sorted := sorted[t := a[..]];
      rest := rest - {t};
    }
  }

  // ---------------------------------------------------------------------
  // Walking the threads

  /** The samples of the threads in `order`, thread after thread. */
  ghost function Stream(order: seq<int64>, threads: map<int64, seq<EventWithEnd>>): seq<StackSample>
    requires forall i :: 0 <= i < |order| ==> order[i] in threads
  {
    if order == [] then []
    else Stream(order[..|order| - 1], threads) + ThreadSamples(threads[order[|order| - 1]])
  }

  /** Walks every thread once, in an arbitrary order, collecting the samples. */
  method RunThreads(threads: map<int64, seq<EventWithEnd>>) returns (stream: seq<StackSample>, ghost order: seq<int64>)
    ensures Distinct(order) && (forall t :: t in order <==> t in threads)
    ensures stream == Stream(order, threads)
  {
    var rest := threads.Keys;
    stream := [];
    order := [];
    while rest != {}
      invariant rest <= threads.Keys
      invariant Distinct(order) && (forall t :: t in order <==> t in threads && t !in rest)
      invariant stream == Stream(order, threads)
      decreases |rest|
    {
      var t :| t in rest;
      var samples := ProcessThreadEvents(threads[t]);
      assert (order + [t])[..|order|] == order;
      stream := stream + samples;
      order := order + [t];
      rest := rest - {t};
    }
  }

  // ---------------------------------------------------------------------
  // Aggregation

  /** The aggregation key of a stack: every frame key followed by ";". */
  function JoinKey(stack: seq<string>): string
  {
    if stack == [] then "" else JoinKey(stack[..|stack| - 1]) + stack[|stack| - 1] + ";"
  }

  /** Builds the aggregation key frame by frame. */
  method BuildKey(stack: seq<string>) returns (key: string)
    ensures key == JoinKey(stack)
  {
    key := "";
    for i := 0 to |stack|
      invariant key == JoinKey(stack[..i])
    {
      assert stack[..i + 1][..i] == stack[..i];
      key := key + stack[i] + ";";
    }
    assert stack[..|stack|] == stack;
  }

  /** The characters after the last ';' of `w` (all of `w` when it has none). */
  function AfterLastSemi(w: string): string
  {
    if w == [] || w[|w| - 1] == ';' then [] else AfterLastSemi(w[..|w| - 1]) + [w[|w| - 1]]
  }

  /** A ';'-free segment after a key that is empty or ends in ';' is what follows the last ';'. */
  lemma {:induction false} SegmentAfterLastSemi(x: string, seg: string)
    requires x == [] || x[|x| - 1] == ';'
    requires ';' !in seg
    ensures AfterLastSemi(x + seg) == seg
  {
    if seg == [] {
      assert x + seg == x;
    } else {
      var init := seg[..|seg| - 1];
      assert (x + seg)[..|x + seg| - 1] == x + init;
      SegmentAfterLastSemi(x, init);
    }
  }

  lemma JoinKeyEmpty(stack: seq<string>)
    ensures JoinKey(stack) == [] <==> stack == []
  {
  }

  /** A ';' inside a name or category lets two different stacks share a key. */
  lemma JoinKeyCollision()
    ensures [FrameKey("a", "x;b"), FrameKey("c", "d")] != [FrameKey("a", "x"), FrameKey("b;c", "d")]
    ensures JoinKey([FrameKey("a", "x;b"), FrameKey("c", "d")]) == JoinKey([FrameKey("a", "x"), FrameKey("b;c", "d")])
  {
    var s1, s2 := [FrameKey("a", "x;b"), FrameKey("c", "d")], [FrameKey("a", "x"), FrameKey("b;c", "d")];
    assert FrameKey("a", "x;b") == "a\0x;b" && FrameKey("a", "x") == "a\0x";
    assert s1[..1][..0] == [] && s2[..1][..0] == [];
    assert JoinKey(s1) == "a\0x;b;c\0d;";
    assert JoinKey(s2) == "a\0x;b;c\0d;";
  }

  /**
    * With no ';' inside a frame key, equal aggregation keys come from equal
    * stacks: samples merge exactly when their stacks are the same.
    */
  lemma {:induction false} JoinKeyInjective(a: seq<string>, b: seq<string>)
    requires forall i :: 0 <= i < |a| ==> ';' !in a[i]
    requires forall i :: 0 <= i < |b| ==> ';' !in b[i]
    ensures JoinKey(a) == JoinKey(b) <==> a == b
  {
    JoinKeyEmpty(a);
    JoinKeyEmpty(b);
    if JoinKey(a) == JoinKey(b) && a != [] && b != [] {
      var ia, la := a[..|a| - 1], a[|a| - 1];
      var ib, lb := b[..|b| - 1], b[|b| - 1];
      var ka, kb := JoinKey(ia), JoinKey(ib);
      var w := ka + la;
      assert JoinKey(a) == w + ";";
      assert JoinKey(b) == (kb + lb) + ";";
      assert w == kb + lb by {
        assert w == JoinKey(a)[..|JoinKey(a)| - 1];
        assert kb + lb == JoinKey(b)[..|JoinKey(b)| - 1];
      }
      JoinKeyEmpty(ia);
      JoinKeyEmpty(ib);
      SegmentAfterLastSemi(ka, la);
      SegmentAfterLastSemi(kb, lb);
      assert ka == w[..|ka|] == kb;
      JoinKeyInjective(ia, ib);
      assert a == ia + [la] && b == ib + [lb];
    }
  }

  /** The aggregate of one stack key. */
  datatype SampleData = SampleData(locationIds: seq<nat>, count: int, timeNs: int)

  /** One (key, 1) pair per sample. */
  function CountPairs(stream: seq<StackSample>): seq<(string, int)>
  {
    if stream == [] then []
    else CountPairs(stream[..|stream| - 1]) + [(JoinKey(stream[|stream| - 1].stack), 1)]
  }

  /** One (key, nanoseconds) pair per sample. */
  function TimePairs(stream: seq<StackSample>): seq<(string, int)>
  {
    if stream == [] then []
    else TimePairs(stream[..|stream| - 1]) + [(JoinKey(stream[|stream| - 1].stack), stream[|stream| - 1].timeNs)]
  }

  /** The stack keys that occur in the stream. */
  ghost function StackKeys(stream: seq<StackSample>): set<string>
  {
    KeySet(CountPairs(stream))
  }

  /** The stack of the first sample with key `k`. */
  ghost function FirstStack(stream: seq<StackSample>, k: string): seq<string>
  {
    if stream == [] then []
    else if k in StackKeys(stream[..|stream| - 1]) then FirstStack(stream[..|stream| - 1], k)
    else if JoinKey(stream[|stream| - 1].stack) == k then stream[|stream| - 1].stack
    else []
  }

  /** Location id `ids[j]` names the frame `j` places from the leaf of `stack`. */
  ghost predicate IdFor(p: Profile, ids: seq<nat>, stack: seq<string>, j: int)
  {
    0 <= j < |ids| ==>
      0 <= |stack| - 1 - j < |stack|
      && 1 <= ids[j] <= |p.locations| && LocationKey(p, ids[j]) == stack[|stack| - 1 - j]
  }

  /** `ids` are the locations of `stack`, leaf first. */
  ghost predicate LeafFirst(p: Profile, ids: seq<nat>, stack: seq<string>)
  {
    |ids| == |stack| && forall j :: IdFor(p, ids, stack, j)
  }

  /** The map entry for `k` holds the count, the time and the first stack of the key. */
  ghost predicate Aggregated(p: Profile, stream: seq<StackSample>, m: map<string, SampleData>, k: string)
  {
    k in m ==>
      && m[k].count == WeightOf(CountPairs(stream), k)
      && m[k].timeNs == WeightOf(TimePairs(stream), k)
      && LeafFirst(p, m[k].locationIds, FirstStack(stream, k))
  }

  /** Growing the tables keeps every id naming the same frame. */
  lemma LeafFirstGrows(p: Profile, q: Profile, ids: seq<nat>, stack: seq<string>)
    requires WellFormed(p) && TablesGrow(p, q) && LeafFirst(p, ids, stack)
    ensures LeafFirst(q, ids, stack)
  {
    forall j ensures IdFor(q, ids, stack, j) {
      if 0 <= j < |ids| {
        assert IdFor(p, ids, stack, j);
        GrowsKeepsLocationKey(p, q, ids[j]);
      }
    }
  }

  /** How the pair lists, the key set and the first stacks grow with one more sample. */
  lemma StreamSnoc(s: seq<StackSample>, x: StackSample)
    ensures CountPairs(s + [x]) == CountPairs(s) + [(JoinKey(x.stack), 1)]
    ensures TimePairs(s + [x]) == TimePairs(s) + [(JoinKey(x.stack), x.timeNs)]
    ensures StackKeys(s + [x]) == StackKeys(s) + {JoinKey(x.stack)}
    ensures forall k :: FirstStack(s + [x], k)
                          == (if k in StackKeys(s) then FirstStack(s, k) else if JoinKey(x.stack) == k then x.stack else [])
  {
    assert (s + [x])[..|s|] == s;
  }

  /** Time pairs carry the same keys as count pairs. */
  lemma {:induction false} TimeKeys(s: seq<StackSample>)
    ensures KeySet(TimePairs(s)) == StackKeys(s)
  {
    if s != [] {
      TimeKeys(s[..|s| - 1]);
    }
  }

  /** The entry of a repeated key after the repeat. */
  function Bump(m: map<string, SampleData>, key: string, timeNs: int): map<string, SampleData>
    requires key in m
  {
    m[key := m[key].(count := m[key].count + 1, timeNs := m[key].timeNs + timeNs)]
  }

  lemma RepeatAt(p: Profile, s: seq<StackSample>, x: StackSample, m: map<string, SampleData>, k: string)
    requires m.Keys == StackKeys(s) && JoinKey(x.stack) in m
    requires Aggregated(p, s, m, k)
    ensures Aggregated(p, s + [x], Bump(m, JoinKey(x.stack), x.timeNs), k)
  {
    StreamSnoc(s, x);
    WeightOfSnoc(CountPairs(s), (JoinKey(x.stack), 1), k);
    WeightOfSnoc(TimePairs(s), (JoinKey(x.stack), x.timeNs), k);
  }

  /** A repeat of a known key adds one to its count and its time to its time. */
  lemma MergeRepeat(p: Profile, s: seq<StackSample>, x: StackSample, m: map<string, SampleData>)
    requires m.Keys == StackKeys(s) && JoinKey(x.stack) in m
    requires forall k :: Aggregated(p, s, m, k)
    ensures Bump(m, JoinKey(x.stack), x.timeNs).Keys == StackKeys(s + [x])
    ensures forall k :: Aggregated(p, s + [x], Bump(m, JoinKey(x.stack), x.timeNs), k)
  {
    StreamSnoc(s, x);
    forall k ensures Aggregated(p, s + [x], Bump(m, JoinKey(x.stack), x.timeNs), k) {
      RepeatAt(p, s, x, m, k);
    }
  }

  /** The map after the first sample of a key. */
  function Enter(m: map<string, SampleData>, x: StackSample, ids: seq<nat>): map<string, SampleData>
  {
    m[JoinKey(x.stack) := SampleData(ids, 1, x.timeNs)]
  }

  lemma FirstAt(p: Profile, q: Profile, s: seq<StackSample>, x: StackSample, m: map<string, SampleData>, ids: seq<nat>, k: string)
    requires WellFormed(p) && TablesGrow(p, q)
    requires m.Keys == StackKeys(s) && JoinKey(x.stack) !in m
    requires Aggregated(p, s, m, k)
    requires LeafFirst(q, ids, x.stack)
    ensures Aggregated(q, s + [x], Enter(m, x, ids), k)
  {
    var key := JoinKey(x.stack);
    StreamSnoc(s, x);
    WeightOfSnoc(CountPairs(s), (key, 1), k);
    WeightOfSnoc(TimePairs(s), (key, x.timeNs), k);
    if k == key {
      TimeKeys(s);
      WeightOfAbsent(CountPairs(s), key);
      WeightOfAbsent(TimePairs(s), key);
    } else if k in m {
      LeafFirstGrows(p, q, m[k].locationIds, FirstStack(s, k));
    }
  }

  /** The first sample of a key enters with count 1, its time and its stack. */
  lemma MergeFirst(p: Profile, q: Profile, s: seq<StackSample>, x: StackSample, m: map<string, SampleData>, ids: seq<nat>)
    requires WellFormed(p) && TablesGrow(p, q)
    requires m.Keys == StackKeys(s) && JoinKey(x.stack) !in m
    requires forall k :: Aggregated(p, s, m, k)
    requires LeafFirst(q, ids, x.stack)
    ensures Enter(m, x, ids).Keys == StackKeys(s + [x])
    ensures forall k :: Aggregated(q, s + [x], Enter(m, x, ids), k)
  {
    StreamSnoc(s, x);
    forall k ensures Aggregated(q, s + [x], Enter(m, x, ids), k) {
      FirstAt(p, q, s, x, m, ids, k);
    }
  }

  /** The slots of `ids` from `lo` on hold the locations of `stack`, leaf first. */
  ghost predicate Placed(p: Profile, ids: seq<nat>, stack: seq<string>, lo: int)
  {
    |ids| == |stack| && 0 <= lo <= |ids|
    && forall j :: lo <= j < |ids| ==>
         1 <= ids[j] <= |p.locations| && LocationKey(p, ids[j]) == stack[|stack| - 1 - j]
  }

  /** Growing the tables keeps the placed slots, and one more location fills the slot below them. */
  lemma PlacedStep(p: Profile, q: Profile, ids: seq<nat>, stack: seq<string>, lo: int, id: nat)
    requires WellFormed(p) && TablesGrow(p, q) && Placed(p, ids, stack, lo) && lo >= 1
    requires 1 <= id <= |q.locations| && LocationKey(q, id) == stack[|stack| - lo]
    ensures Placed(q, ids[lo - 1 := id], stack, lo - 1)
  {
    var r := ids[lo - 1 := id];
    forall j | lo - 1 <= j < |r|
      ensures 1 <= r[j] <= |q.locations| && LocationKey(q, r[j]) == stack[|stack| - 1 - j]
    {
      if j >= lo {
        assert r[j] == ids[j];
        GrowsKeepsLocationKey(p, q, ids[j]);
      }
    }
  }

  /** Interns frame `i` of `sample`: its location names that frame's key. */
  method InternFrame(pb: Builder, sample: StackSample, i: nat) returns (locId: nat)
    requires pb.Valid() && WellShaped(sample) && i < |sample.names|
    modifies pb
    ensures pb.Valid() && Grows(old(pb.profile), pb.profile)
    ensures 1 <= locId <= |pb.profile.locations| && LocationKey(pb.profile, locId) == sample.stack[i]
  {
    assert sample.stack[i] == FrameKey(sample.names[i], sample.cats[i]);
    locId := pb.GetOrCreateLocation(sample.names[i], sample.cats[i]);
  }

  /** Interns frame `i` of `sample` and stores its location id in its leaf-first slot. */
  method PlaceFrame(pb: Builder, locationIds: array<nat>, sample: StackSample, i: nat)
    requires pb.Valid() && WellShaped(sample) && i < |sample.names| == locationIds.Length
    requires Placed(pb.profile, locationIds[..], sample.stack, |sample.names| - i)
    modifies pb, locationIds
    ensures pb.Valid() && Grows(old(pb.profile), pb.profile)
    ensures Placed(pb.profile, locationIds[..], sample.stack, |sample.names| - i - 1)
  {
    ghost var prev, before := pb.profile, locationIds[..];
    var locId := InternFrame(pb, sample, i);
    ghost var after := pb.profile;
    PlacedStep(prev, after, before, sample.stack, |sample.names| - i, locId);
    locationIds[|sample.names| - 1 - i] := locId;
    assert pb.profile == after;
    assert locationIds[..] == before[|sample.names| - 1 - i := locId];
  }

  /** Interns the frames of a new stack key; the ids are stored leaf first. */
  method LocationIdsFor(pb: Builder, sample: StackSample) returns (ids: seq<nat>)
    requires pb.Valid() && WellShaped(sample)
    modifies pb
    ensures pb.Valid() && Grows(old(pb.profile), pb.profile)
    ensures LeafFirst(pb.profile, ids, sample.stack)
  {
    var n := |sample.names|;
    var locationIds := new nat[n];
    ghost var p0 := pb.profile;
    for i := 0 to n
      invariant pb.Valid() && Grows(p0, pb.profile)
      invariant Placed(pb.profile, locationIds[..], sample.stack, n - i)
    {
      PlaceFrame(pb, locationIds, sample, i);
    }
    ids := locationIds[..];
    forall j ensures IdFor(pb.profile, ids, sample.stack, j) {
    }
  }

  /**
    * Merges the samples by stack key: a new key interns its frames and
    * starts at count 1; a repeat adds one to the count and its time.
    */
  method Aggregate(pb: Builder, stream: seq<StackSample>) returns (sampleMap: map<string, SampleData>)
    requires pb.Valid()
    requires forall i :: 0 <= i < |stream| ==> WellShaped(stream[i])
    modifies pb
    ensures pb.Valid() && Grows(old(pb.profile), pb.profile)
    ensures sampleMap.Keys == StackKeys(stream)
    ensures forall k :: Aggregated(pb.profile, stream, sampleMap, k)
  {
    sampleMap := map[];
    ghost var p0 := pb.profile;
    for i := 0 to |stream|
      invariant pb.Valid() && Grows(p0, pb.profile)
      invariant sampleMap.Keys == StackKeys(stream[..i])
      invariant forall k :: Aggregated(pb.profile, stream[..i], sampleMap, k)
    {
      assert stream[..i + 1] == stream[..i] + [stream[i]];
      var sample := stream[i];
      var key := BuildKey(sample.stack);
      if key in sampleMap {
        var existing := sampleMap[key];
        MergeRepeat(pb.profile, stream[..i], sample, sampleMap);
        assert Bump(sampleMap, key, sample.timeNs) == sampleMap[key := existing.(count := existing.count + 1, timeNs := existing.timeNs + sample.timeNs)];
        sampleMap := sampleMap[key := existing.(count := existing.count + 1, timeNs := existing.timeNs + sample.timeNs)];
      } else {
        ghost var prev := pb.profile;
        var locationIds := LocationIdsFor(pb, sample);
        MergeFirst(prev, pb.profile, stream[..i], sample, sampleMap, locationIds);
        sampleMap := sampleMap[key := SampleData(locationIds, 1, sample.timeNs)];
      }
    }
    assert stream[..|stream|] == stream;
  }

  // ---------------------------------------------------------------------
  // Emission

  /** The pprof samples for the keys in `order`: value = [count, time]. */
  function Emitted(m: map<string, SampleData>, order: seq<string>): seq<Sample>
    requires forall i :: 0 <= i < |order| ==> order[i] in m
  {
    if order == [] then []
    else
      var d := m[order[|order| - 1]];
      Emitted(m, order[..|order| - 1]) + [Sample(d.locationIds, [d.count, d.timeNs])]
  }

  /** Every location id names a location. */
  ghost predicate IdsResolve(p: Profile, ids: seq<nat>)
  {
    forall j :: 0 <= j < |ids| ==> 1 <= ids[j] <= |p.locations|
  }

  /** Appends one sample per map entry, in an arbitrary order of the keys. */
  method EmitSamples(pb: Builder, sampleMap: map<string, SampleData>) returns (ghost order: seq<string>)
    requires pb.Valid()
    requires forall k :: k in sampleMap ==> IdsResolve(pb.profile, sampleMap[k].locationIds)
    modifies pb
    ensures pb.Valid()
    ensures Distinct(order) && (forall k :: k in order <==> k in sampleMap)
    ensures pb.profile == old(pb.profile).(samples := old(pb.profile.samples) + Emitted(sampleMap, order))
  {
    var rest := sampleMap.Keys;
    order := [];
    while rest != {}
      invariant pb.Valid()
      invariant rest <= sampleMap.Keys
      invariant Distinct(order) && (forall k :: k in order <==> k in sampleMap && k !in rest)
      invariant pb.profile == old(pb.profile).(samples := old(pb.profile.samples) + Emitted(sampleMap, order))
      decreases |rest|
    {
      var k :| k in rest;
      var s := sampleMap[k];
      var smp := Sample(s.locationIds, [s.count, s.timeNs]);
      assert IdsResolve(pb.profile, s.locationIds);
      AddSampleInterned(pb.profile, pb.stringIndex, pb.functionIndex, pb.locationIndex, smp);
      assert (order + [k])[..|order|] == order;
      pb.profile := pb.profile.(samples := pb.profile.samples + [smp]);
      order := order + [k];
      rest := rest - {k};
    }
  }

  // ---------------------------------------------------------------------
  // ConvertTrace

  /** The fixed metadata of every converted profile. */
  ghost predicate Metadata(p: Profile)
  {
    && |p.sampleType| == 2
    && ValueTypeNames(p, p.sampleType[0]) == ("samples", "count")
    && ValueTypeNames(p, p.sampleType[1]) == ("time", "nanoseconds")
    && p.periodType.Some? && ValueTypeNames(p, p.periodType.value) == ("cpu", "nanoseconds")
    && p.period == 1000000 && p.timeNanos == 0 && p.durationNanos == 0
  }

  /** Appending to the string table and changing the other tables keeps the metadata. */
  lemma MetadataKept(p: Profile, q: Profile)
    requires WellFormed(p) && Metadata(p) && p.stringTable <= q.stringTable
    requires q.sampleType == p.sampleType && q.periodType == p.periodType
    requires q.period == p.period && q.timeNanos == p.timeNanos && q.durationNanos == p.durationNanos
    ensures Metadata(q)
  {
    assert SampleTypeOk(p, 0) && SampleTypeOk(p, 1);
    NamesKept(p, q, p.sampleType[0]);
    NamesKept(p, q, p.sampleType[1]);
    NamesKept(p, q, p.periodType.value);
  }

  /** A new builder with the two sample types, the period type and the period set. */
  method NewProfileBuilder() returns (pb: Builder)
    ensures fresh(pb) && pb.Valid()
    ensures Metadata(pb.profile) && pb.profile.samples == []
  {
    pb := new Builder();
    var types := [("samples", "count"), ("time", "nanoseconds")];
    pb.SetSampleTypes(types);
    ghost var p0 := pb.profile;
    assert ValueTypeNames(p0, p0.sampleType[0 + 0]) == types[0];
    assert ValueTypeNames(p0, p0.sampleType[0 + 1]) == types[1];
    pb.SetPeriodType("cpu", "nanoseconds");
    assert SampleTypeOk(p0, 0) && SampleTypeOk(p0, 1);
    NamesKept(p0, pb.profile, p0.sampleType[0]);
    NamesKept(p0, pb.profile, p0.sampleType[1]);
    SetPeriodInterned(pb.profile, pb.stringIndex, pb.functionIndex, pb.locationIndex, 1000000);
    pb.profile := pb.profile.(period := 1000000);
  }

  /** The pprof sample emitted for key `k` of the stream. */
  ghost predicate SampleFor(p: Profile, stream: seq<StackSample>, k: string, s: Sample)
  {
    && s.value == [WeightOf(CountPairs(stream), k), WeightOf(TimePairs(stream), k)]
    && LeafFirst(p, s.locationId, FirstStack(stream, k))
  }

  /** The summed counts (value[0]) of a list of samples. */
  function CountSum(samples: seq<Sample>): int
  {
    if samples == [] then 0
    else
      var v := samples[|samples| - 1].value;
      CountSum(samples[..|samples| - 1]) + (if |v| >= 1 then v[0] else 0)
  }

  /** The summed times (value[1]) of a list of samples. */
  function TimeSum(samples: seq<Sample>): int
  {
    if samples == [] then 0
    else
      var v := samples[|samples| - 1].value;
      TimeSum(samples[..|samples| - 1]) + (if |v| >= 2 then v[1] else 0)
  }

  /** The summed times of a stream of stack samples. */
  function StreamTime(stream: seq<StackSample>): int
  {
    if stream == [] then 0 else StreamTime(stream[..|stream| - 1]) + stream[|stream| - 1].timeNs
  }

  /**
    * Converts a trace into a pprof profile. The ghost results expose the
    * choices the source leaves to the scheduler and the map iteration
    * order: the grouped and sorted threads, the order the threads were
    * walked in, the resulting stream of samples and the order of the keys.
    */
  method ConvertTrace(events: seq<TraceEvent>)
    returns (p: Profile, ghost threads: map<int64, seq<EventWithEnd>>, ghost order: seq<int64>,
             ghost stream: seq<StackSample>, ghost keys: seq<string>)
    ensures WellFormed(p) && Metadata(p)
    ensures SortedThreads(events, threads)
    ensures Distinct(order) && (forall t :: t in order <==> t in threads)
    ensures stream == Stream(order, threads)
    ensures Distinct(keys) && (forall k :: k in keys <==> k in StackKeys(stream))
    ensures |p.samples| == |keys|
    ensures forall i :: 0 <= i < |keys| ==> SampleFor(p, stream, keys[i], p.samples[i])
    ensures CountSum(p.samples) == |Kept(events)|
    ensures TimeSum(p.samples) == DurTotal(Kept(events))
    ensures |p.samples| <= |Kept(events)|
    ensures Kept(events) == [] ==> p.samples == []
  {
    var sorted := GroupAndSort(events);
    threads := sorted;
    var s;
    p, order, s, keys := BuildProfile(sorted);
    stream := s;
    StreamTotals(events, threads, order);
  }

  /** Each thread's list is its converted events, sorted by start time. */
  ghost predicate SortedThreads(events: seq<TraceEvent>, threads: map<int64, seq<EventWithEnd>>)
  {
    && threads.Keys == Tids(events)
    && forall t :: t in threads ==>
         SortedBy(threads[t], StartTime) && multiset(threads[t]) == multiset(ThreadOf(events, t))
  }

  /** Filters, groups by thread and sorts every thread by start time. */
  method GroupAndSort(events: seq<TraceEvent>) returns (threads: map<int64, seq<EventWithEnd>>)
    ensures SortedThreads(events, threads)
  {
    var grouped := GroupByThread(events);
    threads := SortThreads(grouped);
    forall t | t in threads
      ensures multiset(threads[t]) == multiset(ThreadOf(events, t))
    {
      assert ThreadOf(events, t) == grouped[t];
    }
  }

  /**
    * Sets the metadata, walks the threads, aggregates their samples and
    * emits one sample per stack key.
    */
  method BuildProfile(threads: map<int64, seq<EventWithEnd>>)
    returns (p: Profile, ghost order: seq<int64>, stream: seq<StackSample>, ghost keys: seq<string>)
    ensures WellFormed(p) && Metadata(p)
    ensures Distinct(order) && (forall t :: t in order <==> t in threads)
    ensures stream == Stream(order, threads)
    ensures Distinct(keys) && (forall k :: k in keys <==> k in StackKeys(stream))
    ensures |p.samples| == |keys|
    ensures forall i :: 0 <= i < |keys| ==> SampleFor(p, stream, keys[i], p.samples[i])
    ensures CountSum(p.samples) == |stream|
    ensures TimeSum(p.samples) == StreamTime(stream)
    ensures |p.samples| <= |stream|
  {
    var pb := NewProfileBuilder();
    stream, order := RunThreads(threads);
    StreamWellShaped(order, threads);
    ghost var p0 := pb.profile;
    var sampleMap := Aggregate(pb, stream);
    ghost var p1 := pb.profile;
    MetadataKept(p0, p1);
    AggregatedIdsResolve(p1, stream, sampleMap);
    keys := EmitSamples(pb, sampleMap);
    p := pb.Build();
    MetadataKept(p1, p);
    assert p1.samples == [] && p.samples == Emitted(sampleMap, keys);
    EmittedSamples(p1, p, stream, sampleMap, keys);
    EmissionTotals(stream, sampleMap, p1, keys);
  }

  /** Each emitted sample carries its key's count, time and leaf-first locations. */
  lemma EmittedSamples(p1: Profile, p: Profile, s: seq<StackSample>, m: map<string, SampleData>, keys: seq<string>)
    requires WellFormed(p1) && p1.samples == []
    requires forall i :: 0 <= i < |keys| ==> keys[i] in m
    requires m.Keys == StackKeys(s)
    requires p == p1.(samples := p1.samples + Emitted(m, keys))
    requires forall k :: Aggregated(p1, s, m, k)
    ensures |p.samples| == |keys|
    ensures forall i :: 0 <= i < |keys| ==> SampleFor(p, s, keys[i], p.samples[i])
    ensures CountSum(p.samples) >= |p.samples|
  {
    EmittedLength(m, keys);
    forall i | 0 <= i < |keys|
      ensures SampleFor(p, s, keys[i], p.samples[i])
      ensures |p.samples[i].value| >= 1 && p.samples[i].value[0] >= 1
    {
      EmittedAt(m, keys, i);
      assert Aggregated(p1, s, m, keys[i]);
      LeafFirstGrows(p1, p, m[keys[i]].locationIds, FirstStack(s, keys[i]));
      CountAtLeastOne(s, keys[i]);
    }
    CountSumBound(p.samples);
  }

  /** A key that occurs has a count of at least one. */
  lemma {:induction false} CountAtLeastOne(s: seq<StackSample>, k: string)
    ensures WeightOf(CountPairs(s), k) >= (if k in StackKeys(s) then 1 else 0)
  {
    if s != [] {
      var init := s[..|s| - 1];
      CountAtLeastOne(init, k);
      var ps := CountPairs(init);
      assert (ps + [(JoinKey(s[|s| - 1].stack), 1)])[..|ps|] == ps;
    }
  }

  /** With every count at least one, there are no more samples than counts. */
  lemma {:induction false} CountSumBound(samples: seq<Sample>)
    requires forall i :: 0 <= i < |samples| ==> |samples[i].value| >= 1 && samples[i].value[0] >= 1
    ensures CountSum(samples) >= |samples|
  {
    if samples != [] {
      CountSumBound(samples[..|samples| - 1]);
    }
  }

  // ---------------------------------------------------------------------
  // The conservation laws

  /** Every sample of the stream has matching frame keys, names and categories. */
  lemma {:induction false} StreamWellShaped(order: seq<int64>, threads: map<int64, seq<EventWithEnd>>)
    requires forall i :: 0 <= i < |order| ==> order[i] in threads
    ensures forall i :: 0 <= i < |Stream(order, threads)| ==> WellShaped(Stream(order, threads)[i])
  {
    if order != [] {
      var init := order[..|order| - 1];
      var evs := threads[order[|order| - 1]];
      StreamWellShaped(init, threads);
      var a, b := Stream(init, threads), ThreadSamples(evs);
      ThreadSamplesLength(evs);
      forall i | 0 <= i < |a + b| ensures WellShaped((a + b)[i]) {
        if i >= |a| {
          ThreadSampleShape(evs, i - |a|);
        }
      }
    }
  }

  lemma AggregatedIdsResolve(p: Profile, s: seq<StackSample>, m: map<string, SampleData>)
    requires forall k :: Aggregated(p, s, m, k)
    ensures forall k :: k in m ==> IdsResolve(p, m[k].locationIds)
  {
    forall k | k in m ensures IdsResolve(p, m[k].locationIds) {
      assert Aggregated(p, s, m, k);
      var ids := m[k].locationIds;
      forall j | 0 <= j < |ids| ensures 1 <= ids[j] <= |p.locations| {
        assert IdFor(p, ids, FirstStack(s, k), j);
      }
    }
  }

  lemma {:induction false} EmittedLength(m: map<string, SampleData>, order: seq<string>)
    requires forall i :: 0 <= i < |order| ==> order[i] in m
    ensures |Emitted(m, order)| == |order|
  {
    if order != [] {
      EmittedLength(m, order[..|order| - 1]);
    }
  }

  lemma {:induction false} EmittedAt(m: map<string, SampleData>, order: seq<string>, i: nat)
    requires forall j :: 0 <= j < |order| ==> order[j] in m
    requires i < |order|
    ensures |Emitted(m, order)| == |order|
    ensures Emitted(m, order)[i] == Sample(m[order[i]].locationIds, [m[order[i]].count, m[order[i]].timeNs])
  {
    EmittedLength(m, order);
    var n := |order| - 1;
    if i < n {
      EmittedAt(m, order[..n], i);
    }
  }

  /** The emitted counts and times are the per-key totals added up over the emitted keys. */
  lemma {:induction false} EmittedSums(p: Profile, stream: seq<StackSample>, m: map<string, SampleData>, order: seq<string>)
    requires forall i :: 0 <= i < |order| ==> order[i] in m
    requires forall k :: Aggregated(p, stream, m, k)
    ensures CountSum(Emitted(m, order)) == SumOver(order, CountPairs(stream))
    ensures TimeSum(Emitted(m, order)) == SumOver(order, TimePairs(stream))
  {
    if order != [] {
      var init, k := order[..|order| - 1], order[|order| - 1];
      EmittedSums(p, stream, m, init);
      assert Aggregated(p, stream, m, k);
      var e := Emitted(m, init);
      assert Emitted(m, order) == e + [Sample(m[k].locationIds, [m[k].count, m[k].timeNs])];
      assert (e + [Sample(m[k].locationIds, [m[k].count, m[k].timeNs])])[..|e|] == e;
    }
  }

  /** One count per sample, and the times of all samples. */
  lemma {:induction false} PairTotals(stream: seq<StackSample>)
    ensures Total(CountPairs(stream)) == |stream|
    ensures Total(TimePairs(stream)) == StreamTime(stream)
  {
    if stream != [] {
      PairTotals(stream[..|stream| - 1]);
    }
  }

  lemma {:induction false} StreamTimeAppend(a: seq<StackSample>, b: seq<StackSample>)
    ensures StreamTime(a + b) == StreamTime(a) + StreamTime(b)
  {
    if b != [] {
      assert (a + b)[..|a + b| - 1] == a + b[..|b| - 1];
      StreamTimeAppend(a, b[..|b| - 1]);
    } else {
      assert a + b == a;
    }
  }

  lemma {:induction false} DurTotalAppend(a: seq<EventWithEnd>, b: seq<EventWithEnd>)
    ensures DurTotal(a + b) == DurTotal(a) + DurTotal(b)
  {
    if b != [] {
      assert (a + b)[..|a + b| - 1] == a + b[..|b| - 1];
      DurTotalAppend(a, b[..|b| - 1]);
    } else {
      assert a + b == a;
    }
  }

  /** Removing one event takes its duration off the total. */
  lemma DurTotalRemove(left: seq<EventWithEnd>, x: EventWithEnd, right: seq<EventWithEnd>)
    ensures DurTotal(left + [x] + right) == DurTotal(left + right) + DurNs(x.event)
  {
    DurTotalAppend(left + [x], right);
    assert (left + [x])[..|left|] == left;
    DurTotalAppend(left, right);
  }

  /** Reordering events does not change their total duration. */
  lemma {:induction false} DurTotalPerm(a: seq<EventWithEnd>, b: seq<EventWithEnd>)
    requires multiset(a) == multiset(b)
    ensures DurTotal(a) == DurTotal(b)
  {
    if a != [] {
      var n := |a| - 1;
      var x := a[n];
      assert a == a[..n] + [x];
      assert x in multiset(b);
      var j :| 0 <= j < |b| && b[j] == x;
      var rest := b[..j] + b[j + 1..];
      assert b == b[..j] + [x] + b[j + 1..];
      assert multiset(b) == multiset(rest) + multiset{x};
      assert multiset(a) == multiset(a[..n]) + multiset{x};
      assert multiset(a[..n]) == multiset(a) - multiset{x} == multiset(b) - multiset{x} == multiset(rest);
      DurTotalPerm(a[..n], rest);
      DurTotalRemove(b[..j], x, b[j + 1..]);
    } else {
      assert |b| == |multiset(b)| == 0;
    }
  }

  /** The samples of one thread carry its events' durations. */
  lemma {:induction false} ThreadSamplesTime(events: seq<EventWithEnd>)
    ensures StreamTime(ThreadSamples(events)) == DurTotal(events)
  {
    if events != [] {
      var n := |events| - 1;
      ThreadSamplesTime(events[..n]);
      var init := ThreadSamples(events[..n]);
      var x := StepSample(events[..n], events[n]);
      assert ThreadSamples(events) == init + [x];
      assert (init + [x])[..|init|] == init;
    }
  }

  lemma TidPairsSnoc(pre: seq<TraceEvent>, e: TraceEvent)
    ensures TidCounts(pre + [e]) == TidCounts(pre) + (if Converted(e) then [(TidOf(e.tid), 1)] else [])
    ensures TidTimes(pre + [e]) == TidTimes(pre) + (if Converted(e) then [(TidOf(e.tid), DurNs(e))] else [])
  {
    assert (pre + [e])[..|pre|] == pre;
  }

  /** Thread `t`'s list has as many events, and as much time, as its pairs say. */
  lemma {:induction false} ThreadWeights(events: seq<TraceEvent>, t: int64)
    ensures |ThreadOf(events, t)| == WeightOf(TidCounts(events), t)
    ensures DurTotal(ThreadOf(events, t)) == WeightOf(TidTimes(events), t)
  {
    if events != [] {
      var pre, e := events[..|events| - 1], events[|events| - 1];
      assert events == pre + [e];
      ThreadWeights(pre, t);
      ThreadOfSnoc(pre, e, t);
      TidPairsSnoc(pre, e);
      var mine := if Converted(e) && TidOf(e.tid) == t then [WithEnd(e)] else [];
      DurTotalAppend(ThreadOf(pre, t), mine);
      assert DurTotal(mine) == (if mine == [] then 0 else DurNs(e)) by {
        if mine != [] {
          assert mine[..0] == [];
        }
      }
      var cs := if Converted(e) then [(TidOf(e.tid), 1)] else [];
      var ts := if Converted(e) then [(TidOf(e.tid), DurNs(e))] else [];
      WeightOfAppend(TidCounts(pre), cs, t);
      WeightOfAppend(TidTimes(pre), ts, t);
      assert cs != [] ==> cs[..0] == [];
      assert ts != [] ==> ts[..0] == [];
    }
  }

  /** The thread pairs total the converted events and their time. */
  lemma {:induction false} KeptTotals(events: seq<TraceEvent>)
    ensures Total(TidCounts(events)) == |Kept(events)|
    ensures Total(TidTimes(events)) == DurTotal(Kept(events))
  {
    if events != [] {
      var n := |events| - 1;
      var e := events[n];
      KeptTotals(events[..n]);
      var k := Kept(events[..n]);
      if Converted(e) {
        assert (k + [WithEnd(e)])[..|k|] == k;
        assert (TidCounts(events[..n]) + [(TidOf(e.tid), 1)])[..|TidCounts(events[..n])|] == TidCounts(events[..n]);
        assert (TidTimes(events[..n]) + [(TidOf(e.tid), DurNs(e))])[..|TidTimes(events[..n])|] == TidTimes(events[..n]);
      } else {
        assert k + [] == k;
        assert TidCounts(events[..n]) + [] == TidCounts(events[..n]);
        assert TidTimes(events[..n]) + [] == TidTimes(events[..n]);
      }
    }
  }

  /** The stream is as long, and as long in time, as the threads' per-thread totals added up. */
  lemma {:induction false} StreamSums(order: seq<int64>, threads: map<int64, seq<EventWithEnd>>, events: seq<TraceEvent>)
    requires forall i :: 0 <= i < |order| ==> order[i] in threads
    requires forall t :: t in threads ==>
      |threads[t]| == WeightOf(TidCounts(events), t) && DurTotal(threads[t]) == WeightOf(TidTimes(events), t)
    ensures |Stream(order, threads)| == SumOver(order, TidCounts(events))
    ensures StreamTime(Stream(order, threads)) == SumOver(order, TidTimes(events))
  {
    if order != [] {
      var init, t := order[..|order| - 1], order[|order| - 1];
      StreamSums(init, threads, events);
      ThreadSamplesLength(threads[t]);
      ThreadSamplesTime(threads[t]);
      StreamTimeAppend(Stream(init, threads), ThreadSamples(threads[t]));
    }
  }

  /**
    * The stream has one sample per converted event and carries their
    * summed durations.
    */
  lemma StreamTotals(events: seq<TraceEvent>, threads: map<int64, seq<EventWithEnd>>, order: seq<int64>)
    requires SortedThreads(events, threads)
    requires Distinct(order) && (forall t :: t in order <==> t in threads)
    ensures |Stream(order, threads)| == |Kept(events)|
    ensures StreamTime(Stream(order, threads)) == DurTotal(Kept(events))
  {
    forall t | t in threads
      ensures |threads[t]| == WeightOf(TidCounts(events), t) && DurTotal(threads[t]) == WeightOf(TidTimes(events), t)
    {
      ThreadWeights(events, t);
      assert |threads[t]| == |multiset(threads[t])| == |multiset(ThreadOf(events, t))| == |ThreadOf(events, t)|;
      DurTotalPerm(threads[t], ThreadOf(events, t));
    }
    StreamSums(order, threads, events);
    forall i | 0 <= i < |TidCounts(events)| ensures TidCounts(events)[i].0 in order {
      assert TidCounts(events)[i].0 in Tids(events);
    }
    GroupedTotal(order, TidCounts(events));
    TidTimeKeys(events);
    GroupedTotal(order, TidTimes(events));
    KeptTotals(events);
  }

  /** The emitted counts total the samples of the stream, and the emitted times their times. */
  lemma EmissionTotals(stream: seq<StackSample>, m: map<string, SampleData>, p: Profile, keys: seq<string>)
    requires m.Keys == StackKeys(stream) && forall k :: Aggregated(p, stream, m, k)
    requires Distinct(keys) && (forall k :: k in keys <==> k in m)
    ensures CountSum(Emitted(m, keys)) == |stream|
    ensures TimeSum(Emitted(m, keys)) == StreamTime(stream)
  {
    PairTotals(stream);
    EmittedSums(p, stream, m, keys);
    forall i | 0 <= i < |CountPairs(stream)| ensures CountPairs(stream)[i].0 in keys {
      assert CountPairs(stream)[i].0 in StackKeys(stream);
    }
    GroupedTotal(keys, CountPairs(stream));
    TimeKeys(stream);
    forall i | 0 <= i < |TimePairs(stream)| ensures TimePairs(stream)[i].0 in keys {
      assert TimePairs(stream)[i].0 in KeySet(TimePairs(stream));
    }
    GroupedTotal(keys, TimePairs(stream));
  }

  /** Thread time pairs carry the same threads as thread count pairs. */
  lemma {:induction false} TidTimeKeys(events: seq<TraceEvent>)
    ensures forall i :: 0 <= i < |TidTimes(events)| ==> TidTimes(events)[i].0 in Tids(events)
  {
    if events != [] {
      var n := |events| - 1;
      TidTimeKeys(events[..n]);
      TidsSnoc(events[..n], events[n]);
      assert events == events[..n] + [events[n]];
    }
  }
}
