// AnalyzeTrace, GetSortedCategories and GetSortedOperations of
// internal/converter/analyzer.go: counters over a trace, per-category and
// per-operation tallies of the converted events, and those tallies listed
// by time, longest first.

module Analyzer {
  import opened Sums
  import opened Sorting
  import opened Trace
  import opened Conversion

  /** CategoryStats and OperationStats, which have the same shape. */
  datatype Stats = Stats(count: int, timeNs: int)

  datatype TraceAnalysis = TraceAnalysis(
    totalEvents: int,
    completeEvents: int,
    skippedZeroDuration: int,
    convertedEvents: int,
    uniqueOperations: int,
    totalTimeNs: int,
    categoryStats: map<string, Stats>,
    operationStats: map<string, Stats>)

  /** CategoryEntry and OperationEntry, which have the same shape. */
  datatype StatsEntry = StatsEntry(name: string, count: int, timeNs: int)

  // ---------------------------------------------------------------------
  // Counters

  /** The number of complete ("X") events. */
  function CompleteCount(events: seq<TraceEvent>): nat
  {
    if events == [] then 0
    else CompleteCount(events[..|events| - 1]) + (if events[|events| - 1].ph == "X" then 1 else 0)
  }

  /** The number of complete events without a positive duration. */
  function SkippedCount(events: seq<TraceEvent>): nat
  {
    if events == [] then 0
    else
      var e := events[|events| - 1];
      SkippedCount(events[..|events| - 1]) + (if e.ph == "X" && e.dur <= 0 then 1 else 0)
  }

  /** Every complete event is either skipped or converted. */
  lemma {:induction false} CompleteSplit(events: seq<TraceEvent>)
    ensures CompleteCount(events) == SkippedCount(events) + |Kept(events)|
  {
    if events != [] {
      CompleteSplit(events[..|events| - 1]);
    }
  }

  // ---------------------------------------------------------------------
  // Tallies

  /** Whether events are tallied by category or by operation name. */
  datatype Grouping = ByCategory | ByOperation

  function Label(g: Grouping, e: TraceEvent): string
  {
    match g
    case ByCategory => e.cat
    case ByOperation => e.name
  }

  function Weight(e: TraceEvent, timed: bool): int
  {
    if timed then DurNs(e) else 1
  }

  /**
    * One (label, weight) pair per converted event: the weight is 1 for
    * counting and the duration in nanoseconds for timing.
    */
  function Tally(events: seq<TraceEvent>, g: Grouping, timed: bool): seq<(string, int)>
  {
    if events == [] then []
    else
      var e := events[|events| - 1];
      Tally(events[..|events| - 1], g, timed) + (if Converted(e) then [(Label(g, e), Weight(e, timed))] else [])
  }

  /** `m` holds, for exactly the keys of the pairs, the count weights `c` and the time weights `t`. */
  ghost predicate Tallies(m: map<string, Stats>, c: seq<(string, int)>, t: seq<(string, int)>)
  {
    && m.Keys == KeySet(c)
    && m.Keys == KeySet(t)
    && forall k :: k in m ==> m[k] == Stats(WeightOf(c, k), WeightOf(t, k))
  }

  /**
    * `m` holds, for exactly the labels of the converted events, how many
    * events carry the label and their summed duration.
    */
  ghost predicate Tallied(events: seq<TraceEvent>, g: Grouping, m: map<string, Stats>)
  {
    Tallies(m, Tally(events, g, false), Tally(events, g, true))
  }

  /** The tally after one more converted event with label `k`; a missing label starts from zero. */
  function Record(m: map<string, Stats>, k: string, durNs: int): map<string, Stats>
  {
    var s := if k in m then m[k] else Stats(0, 0);
    m[k := Stats(s.count + 1, s.timeNs + durNs)]
  }

  lemma TallySnoc(pre: seq<TraceEvent>, e: TraceEvent, g: Grouping, timed: bool)
    ensures Tally(pre + [e], g, timed)
         == Tally(pre, g, timed) + (if Converted(e) then [(Label(g, e), Weight(e, timed))] else [])
  {
    assert (pre + [e])[..|pre|] == pre;
  }

  /** Recording one (key, 1) and one (key, time) pair keeps the map exact. */
  lemma RecordTallies(m: map<string, Stats>, c: seq<(string, int)>, t: seq<(string, int)>, k0: string, d: int)
    requires Tallies(m, c, t)
    ensures Tallies(Record(m, k0, d), c + [(k0, 1)], t + [(k0, d)])
  {
    var x, y := (k0, 1), (k0, d);
    assert (c + [x])[..|c|] == c;
    assert (t + [y])[..|t|] == t;
    var r := Record(m, k0, d);
    if k0 !in m {
      WeightOfAbsent(c, k0);
      WeightOfAbsent(t, k0);
    }
    forall k | k in r
      ensures r[k] == Stats(WeightOf(c + [x], k), WeightOf(t + [y], k))
    {
      WeightOfSnoc(c, x, k);
      WeightOfSnoc(t, y, k);
    }
  }

  /** Recording a converted event keeps the tally exact. */
  lemma TallyStep(pre: seq<TraceEvent>, e: TraceEvent, g: Grouping, m: map<string, Stats>)
    requires Tallied(pre, g, m)
    ensures Tallied(pre + [e], g, if Converted(e) then Record(m, Label(g, e), DurNs(e)) else m)
  {
    TallySnoc(pre, e, g, false);
    TallySnoc(pre, e, g, true);
    var c, t := Tally(pre, g, false), Tally(pre, g, true);
    if Converted(e) {
      RecordTallies(m, c, t, Label(g, e), DurNs(e));
    } else {
      assert c + [] == c && t + [] == t;
    }
  }

  /** The counts add up to the number of converted events, the times to their duration. */
  lemma {:induction false} TallyTotals(events: seq<TraceEvent>, g: Grouping)
    ensures Total(Tally(events, g, false)) == |Kept(events)|
    ensures Total(Tally(events, g, true)) == DurTotal(Kept(events))
  {
    if events != [] {
      var pre, e := events[..|events| - 1], events[|events| - 1];
      assert events == pre + [e];
      TallyTotals(pre, g);
      TallySnoc(pre, e, g, false);
      TallySnoc(pre, e, g, true);
      TotalAppend(Tally(pre, g, false), if Converted(e) then [(Label(g, e), 1)] else []);
      TotalAppend(Tally(pre, g, true), if Converted(e) then [(Label(g, e), DurNs(e))] else []);
      assert Kept(events) == Kept(pre) + (if Converted(e) then [WithEnd(e)] else []);
      DurTotalAppend(Kept(pre), if Converted(e) then [WithEnd(e)] else []);
    }
  }

  // ---------------------------------------------------------------------
  // AnalyzeTrace

  /** The counters and the converted events after one more event. */
  lemma CountersSnoc(pre: seq<TraceEvent>, e: TraceEvent)
    ensures CompleteCount(pre + [e]) == CompleteCount(pre) + (if e.ph == "X" then 1 else 0)
    ensures SkippedCount(pre + [e]) == SkippedCount(pre) + (if e.ph == "X" && e.dur <= 0 then 1 else 0)
    ensures |Kept(pre + [e])| == |Kept(pre)| + (if Converted(e) then 1 else 0)
    ensures DurTotal(Kept(pre + [e])) == DurTotal(Kept(pre)) + (if Converted(e) then DurNs(e) else 0)
  {
    assert (pre + [e])[..|pre|] == pre;
    var k := Kept(pre);
    if Converted(e) {
      assert (k + [WithEnd(e)])[..|k|] == k;
    } else {
      assert k + [] == k;
    }
  }

  /**
    * Counts the events, the complete ones, the skipped ones and the
    * converted ones, sums the converted durations and tallies them by
    * category and by operation name.
    */
  method AnalyzeTrace(events: seq<TraceEvent>) returns (a: TraceAnalysis)
    ensures a.totalEvents == |events|
    ensures a.completeEvents == CompleteCount(events)
    ensures a.skippedZeroDuration == SkippedCount(events)
    ensures a.convertedEvents == |Kept(events)|
    ensures a.completeEvents == a.skippedZeroDuration + a.convertedEvents
    ensures a.totalTimeNs == DurTotal(Kept(events))
    ensures Tallied(events, ByCategory, a.categoryStats)
    ensures Tallied(events, ByOperation, a.operationStats)
    ensures a.uniqueOperations == |a.operationStats|
  {
    var total, complete, skipped, converted, timeNs := 0, 0, 0, 0, 0;
    var categories: map<string, Stats> := map[];
    var operations: map<string, Stats> := map[];
    for i := 0 to |events|
      invariant total == i
      invariant complete == CompleteCount(events[..i])
      invariant skipped == SkippedCount(events[..i])
      invariant converted == |Kept(events[..i])|
      invariant timeNs == DurTotal(Kept(events[..i]))
      invariant Tallied(events[..i], ByCategory, categories)
      invariant Tallied(events[..i], ByOperation, operations)
    {
      var e := events[i];
      assert events[..i + 1] == events[..i] + [e];
      CountersSnoc(events[..i], e);
      TallyStep(events[..i], e, ByCategory, categories);
      TallyStep(events[..i], e, ByOperation, operations);
      total := total + 1;
      if e.ph != "X" {
        continue;
      }
      complete := complete + 1;
      if e.dur <= 0 {
        skipped := skipped + 1;
        continue;
      }
      converted := converted + 1;
      var durNs := e.dur * 1000;
      timeNs := timeNs + durNs;
      categories := Record(categories, e.cat, durNs);
      operations := Record(operations, e.name, durNs);
    }
    assert events[..|events|] == events;
    CompleteSplit(events);
    a := TraceAnalysis(total, complete, skipped, converted, |operations|, timeNs, categories, operations);
  }

  // ---------------------------------------------------------------------
  // Sorted listings

  function EntryOf(stats: map<string, Stats>, k: string): StatsEntry
    requires k in stats
  {
    StatsEntry(k, stats[k].count, stats[k].timeNs)
  }

  function EntryNames(entries: seq<StatsEntry>): seq<string>
  {
    seq(|entries|, i requires 0 <= i < |entries| => entries[i].name)
  }

  /** StatsEntry `i` carries the stats of its name. */
  ghost predicate Carries(stats: map<string, Stats>, entries: seq<StatsEntry>, i: int)
    requires 0 <= i < |entries|
  {
    entries[i].name in stats && entries[i] == EntryOf(stats, entries[i].name)
  }

  /** `entries` lists every key of `stats` once, each with its stats. */
  ghost predicate Listing(stats: map<string, Stats>, entries: seq<StatsEntry>)
  {
    && (forall i :: 0 <= i < |entries| ==> Carries(stats, entries, i))
    && (forall k :: k in stats ==> EntryOf(stats, k) in entries)
    && Distinct(entries)
  }

  function NegTime(e: StatsEntry): int
  {
    -e.timeNs
  }

  /** Longest time first; ties in any order, as `sort.Slice` leaves them. */
  ghost predicate ByTimeDescending(entries: seq<StatsEntry>)
  {
    forall i, j :: 0 <= i < j < |entries| ==> entries[i].timeNs >= entries[j].timeNs
  }

  /** Collects the entries of `stats`, in an arbitrary order, and sorts them by time, longest first. */
  method SortedEntries(stats: map<string, Stats>) returns (entries: seq<StatsEntry>)
    ensures Listing(stats, entries)
    ensures Distinct(EntryNames(entries))
    ensures |entries| == |stats|
    ensures ByTimeDescending(entries)
  {
    var list: seq<StatsEntry> := [];
    var rest := stats.Keys;
    while rest != {}
      invariant rest <= stats.Keys
      invariant forall i :: 0 <= i < |list| ==> Carries(stats, list, i) && list[i].name !in rest
      invariant forall k :: k in stats ==> k in rest || EntryOf(stats, k) in list
      invariant Distinct(list)
      decreases |rest|
    {
      var k :| k in rest;
      ghost var before := list;
      list := list + [EntryOf(stats, k)];
      rest := rest - {k};
      forall i | 0 <= i < |list|
        ensures Carries(stats, list, i) && list[i].name !in rest
      {
        if i < |before| {
          assert list[i] == before[i] && Carries(stats, before, i);
        }
      }
      forall i, j | 0 <= i < j < |list|
        ensures list[i] != list[j]
      {
        if j < |before| {
          assert list[i] == before[i] && list[j] == before[j];
        } else {
          assert list[i] == before[i] && Carries(stats, before, i) && before[i].name !in rest + {k};
        }
      }
    }
    var a := new StatsEntry[|list|](i requires 0 <= i < |list| => list[i]);
    assert a[..] == list;
    SortBy(a, NegTime);
    entries := a[..];
    PermutedListing(stats, list, entries);
    forall i, j | 0 <= i < j < |entries|
      ensures entries[i].timeNs >= entries[j].timeNs
    {
      assert NegTime(entries[i]) <= NegTime(entries[j]);
    }
    ListingNames(stats, entries);
    ListingSize(stats, entries);
  }

  /** GetSortedCategories: the category tallies, longest time first. */
  method GetSortedCategories(a: TraceAnalysis) returns (entries: seq<StatsEntry>)
    ensures Listing(a.categoryStats, entries)
    ensures Distinct(EntryNames(entries))
    ensures |entries| == |a.categoryStats|
    ensures ByTimeDescending(entries)
  {
    entries := SortedEntries(a.categoryStats);
  }

  /** GetSortedOperations: the operation tallies, longest time first. */
  method GetSortedOperations(a: TraceAnalysis) returns (entries: seq<StatsEntry>)
    ensures Listing(a.operationStats, entries)
    ensures Distinct(EntryNames(entries))
    ensures |entries| == |a.operationStats|
    ensures ByTimeDescending(entries)
  {
    entries := SortedEntries(a.operationStats);
  }

  // ---------------------------------------------------------------------
  // Listings under permutation

  /** Distinct elements occur once each. */
  lemma {:induction false} DistinctOnce<T>(xs: seq<T>, x: T)
    requires Distinct(xs)
    ensures multiset(xs)[x] <= 1
  {
    if xs != [] {
      var init, last := xs[..|xs| - 1], xs[|xs| - 1];
      assert xs == init + [last];
      DistinctOnce(init, x);
      if last == x {
        assert x !in init by {
          forall i | 0 <= i < |init| ensures init[i] != x {
            assert init[i] == xs[i];
          }
        }
      }
    }
  }

  /** Elements that occur once each are distinct. */
  lemma OnceDistinct<T>(xs: seq<T>)
    requires forall x :: multiset(xs)[x] <= 1
    ensures Distinct(xs)
  {
    forall i, j | 0 <= i < j < |xs|
      ensures xs[i] != xs[j]
    {
      RepeatCount(xs, i, j);
    }
  }

  /** An element at two positions occurs at least twice. */
  lemma RepeatCount<T>(xs: seq<T>, i: nat, j: nat)
    requires i < j < |xs|
    ensures xs[i] == xs[j] ==> multiset(xs)[xs[j]] >= 2
  {
    assert xs == xs[..j] + [xs[j]] + xs[j + 1..];
    assert xs[..j][i] == xs[i];
    assert multiset(xs)[xs[j]] >= multiset(xs[..j])[xs[j]] + 1;
  }

  /** A permutation of a listing is a listing. */
  lemma PermutedListing(stats: map<string, Stats>, xs: seq<StatsEntry>, ys: seq<StatsEntry>)
    requires forall i :: 0 <= i < |xs| ==> Carries(stats, xs, i)
    requires forall k :: k in stats ==> EntryOf(stats, k) in xs
    requires Distinct(xs)
    requires multiset(xs) == multiset(ys)
    ensures Listing(stats, ys)
  {
    forall i | 0 <= i < |ys|
      ensures Carries(stats, ys, i)
    {
      assert ys[i] in multiset(xs);
      var j :| 0 <= j < |xs| && xs[j] == ys[i];
      assert Carries(stats, xs, j);
    }
    forall k | k in stats
      ensures EntryOf(stats, k) in ys
    {
      assert EntryOf(stats, k) in multiset(ys);
    }
    forall x
      ensures multiset(ys)[x] <= 1
    {
      DistinctOnce(xs, x);
    }
    OnceDistinct(ys);
  }

  /** In a listing, names are distinct: an entry is determined by its name. */
  lemma ListingNames(stats: map<string, Stats>, entries: seq<StatsEntry>)
    requires Listing(stats, entries)
    ensures Distinct(EntryNames(entries))
  {
    forall i, j | 0 <= i < j < |entries|
      ensures EntryNames(entries)[i] != EntryNames(entries)[j]
    {
      assert Carries(stats, entries, i) && Carries(stats, entries, j);
    }
  }

  /** A listing has one entry per key. */
  lemma ListingSize(stats: map<string, Stats>, entries: seq<StatsEntry>)
    requires Listing(stats, entries)
    requires Distinct(EntryNames(entries))
    ensures |entries| == |stats|
  {
    var ns := EntryNames(entries);
    var names := set i | 0 <= i < |ns| :: ns[i];
    forall k | k in stats
      ensures k in names
    {
      var i :| 0 <= i < |entries| && entries[i] == EntryOf(stats, k);
      assert ns[i] == k;
    }
    forall i | 0 <= i < |ns|
      ensures ns[i] in stats
    {
      assert Carries(stats, entries, i);
    }
    assert names == stats.Keys;
    DistinctCard(ns);
  }

  /** Distinct elements make a set of the same size. */
  lemma {:induction false} DistinctCard<T>(xs: seq<T>)
    requires Distinct(xs)
    ensures |set i | 0 <= i < |xs| :: xs[i]| == |xs|
  {
    if xs != [] {
      var init, last := xs[..|xs| - 1], xs[|xs| - 1];
      assert Distinct(init) by {
        forall i, j | 0 <= i < j < |init| ensures init[i] != init[j] {
          assert init[i] == xs[i] && init[j] == xs[j];
        }
      }
      DistinctCard(init);
      var s := set i | 0 <= i < |init| :: init[i];
      assert (set i | 0 <= i < |xs| :: xs[i]) == s + {last} by {
        forall i | 0 <= i < |init| ensures init[i] == xs[i] { }
      }
      assert last !in s by {
        forall i | 0 <= i < |init| ensures init[i] != last {
          assert init[i] == xs[i];
        }
      }
    }
  }

  // ---------------------------------------------------------------------
  // What the listings add up to

  function CountTotal(entries: seq<StatsEntry>): int
  {
    if entries == [] then 0 else CountTotal(entries[..|entries| - 1]) + entries[|entries| - 1].count
  }

  function TimeTotal(entries: seq<StatsEntry>): int
  {
    if entries == [] then 0 else TimeTotal(entries[..|entries| - 1]) + entries[|entries| - 1].timeNs
  }

  lemma {:induction false} EntrySums(stats: map<string, Stats>, entries: seq<StatsEntry>, c: seq<(string, int)>, t: seq<(string, int)>)
    requires forall i :: 0 <= i < |entries| ==> Carries(stats, entries, i)
    requires forall k :: k in stats ==> stats[k] == Stats(WeightOf(c, k), WeightOf(t, k))
    ensures CountTotal(entries) == SumOver(EntryNames(entries), c)
    ensures TimeTotal(entries) == SumOver(EntryNames(entries), t)
  {
    if entries != [] {
      var init := entries[..|entries| - 1];
      assert EntryNames(entries)[..|entries| - 1] == EntryNames(init);
      forall i | 0 <= i < |init| ensures Carries(stats, init, i) {
        assert Carries(stats, entries, i);
      }
      EntrySums(stats, init, c, t);
      assert Carries(stats, entries, |entries| - 1);
    }
  }

  /**
    * Conservation: the counts of a sorted listing of a tally add up to the
    * converted events, and its times to the trace's total time.
    */
  lemma ListingTotals(events: seq<TraceEvent>, g: Grouping, stats: map<string, Stats>, entries: seq<StatsEntry>)
    requires Tallied(events, g, stats)
    requires Listing(stats, entries) && Distinct(EntryNames(entries))
    ensures CountTotal(entries) == |Kept(events)|
    ensures TimeTotal(entries) == DurTotal(Kept(events))
  {
    var c, t := Tally(events, g, false), Tally(events, g, true);
    EntrySums(stats, entries, c, t);
    forall k | k in stats
      ensures k in EntryNames(entries)
    {
      var i :| 0 <= i < |entries| && entries[i] == EntryOf(stats, k);
      assert EntryNames(entries)[i] == k;
    }
    forall i | 0 <= i < |c| ensures c[i].0 in EntryNames(entries) {
      assert c[i].0 in KeySet(c);
    }
    forall i | 0 <= i < |t| ensures t[i].0 in EntryNames(entries) {
      assert t[i].0 in KeySet(t);
    }
    GroupedTotal(EntryNames(entries), c);
    GroupedTotal(EntryNames(entries), t);
    TallyTotals(events, g);
  }

  /** A trace with a non-complete event and a zero-length one. */
  function ExampleTrace(): seq<TraceEvent>
  {
    [ TraceEvent("X", "cat1", "op1", OtherTid, 100, 50),
      TraceEvent("X", "cat1", "op2", OtherTid, 200, 30),
      TraceEvent("X", "cat2", "op1", OtherTid, 300, 20),
      TraceEvent("B", "cat1", "op3", OtherTid, 400, 10),
      TraceEvent("X", "cat1", "op4", OtherTid, 500, 0) ]
  }

  /** Five events, four complete, one of those skipped, 100 microseconds converted. */
  lemma ExampleCounters()
    ensures CompleteCount(ExampleTrace()) == 4 && SkippedCount(ExampleTrace()) == 1
    ensures |Kept(ExampleTrace())| == 3 && DurTotal(Kept(ExampleTrace())) == 100000
  {
    var events := ExampleTrace();
    var p1, p2, p3, p4 := events[..1], events[..2], events[..3], events[..4];
    assert p1 == [] + [events[0]] && p2 == p1 + [events[1]] && p3 == p2 + [events[2]];
    assert p4 == p3 + [events[3]] && events == p4 + [events[4]];
    CountersSnoc([], events[0]);
    CountersSnoc(p1, events[1]);
    CountersSnoc(p2, events[2]);
    CountersSnoc(p3, events[3]);
    CountersSnoc(p4, events[4]);
  }

  /** The tallies hold the labels and weights of the first three events. */
  lemma ExampleTally(g: Grouping, timed: bool)
    ensures Tally(ExampleTrace(), g, timed)
         == [ExamplePair(g, timed, 0), ExamplePair(g, timed, 1), ExamplePair(g, timed, 2)]
  {
    var events := ExampleTrace();
    assert Converted(events[0]) && Converted(events[1]) && Converted(events[2]);
    assert !Converted(events[3]) && !Converted(events[4]);
    var p1, p2, p3, p4 := events[..1], events[..2], events[..3], events[..4];
    assert p1 == [] + [events[0]] && p2 == p1 + [events[1]] && p3 == p2 + [events[2]];
    assert p4 == p3 + [events[3]] && events == p4 + [events[4]];
    TallySnoc([], events[0], g, timed);
    assert Tally(p1, g, timed) == [ExamplePair(g, timed, 0)];
    TallySnoc(p1, events[1], g, timed);
    TallySnoc(p2, events[2], g, timed);
    TallySnoc(p3, events[3], g, timed);
    TallySnoc(p4, events[4], g, timed);
  }

  function ExamplePair(g: Grouping, timed: bool, i: nat): (string, int)
    requires i < 5
  {
    (Label(g, ExampleTrace()[i]), Weight(ExampleTrace()[i], timed))
  }

  /** Two distinct operations; "cat1" holds two events and 80 microseconds. */
  lemma ExampleStats()
    ensures KeySet(Tally(ExampleTrace(), ByOperation, false)) == {"op1", "op2"}
    ensures WeightOf(Tally(ExampleTrace(), ByCategory, false), "cat1") == 2
    ensures WeightOf(Tally(ExampleTrace(), ByCategory, true), "cat1") == 80000
  {
    ExampleTally(ByOperation, false);
    ExampleTally(ByCategory, false);
    ExampleTally(ByCategory, true);
    var ops := Tally(ExampleTrace(), ByOperation, false);
    assert ops == [("op1", 1), ("op2", 1), ("op1", 1)];
    assert KeySet(ops[..1]) == KeySet([]) + {"op1"} by { assert ops[..1][..0] == []; }
    assert KeySet(ops[..2]) == KeySet(ops[..1]) + {"op2"} by { assert ops[..2][..1] == ops[..1]; }
    assert KeySet(ops) == KeySet(ops[..2]) + {"op1"};
    var cs := Tally(ExampleTrace(), ByCategory, false);
    var ts := Tally(ExampleTrace(), ByCategory, true);
    assert cs == [("cat1", 1), ("cat1", 1), ("cat2", 1)];
    assert ts == [("cat1", 50000), ("cat1", 30000), ("cat2", 20000)];
    assert cs[..1] == [] + [cs[0]] && cs[..2] == cs[..1] + [cs[1]] && cs == cs[..2] + [cs[2]];
    assert ts[..1] == [] + [ts[0]] && ts[..2] == ts[..1] + [ts[1]] && ts == ts[..2] + [ts[2]];
    WeightOfSnoc([], cs[0], "cat1");
    WeightOfSnoc(cs[..1], cs[1], "cat1");
    WeightOfSnoc(cs[..2], cs[2], "cat1");
    WeightOfSnoc([], ts[0], "cat1");
    WeightOfSnoc(ts[..1], ts[1], "cat1");
    WeightOfSnoc(ts[..2], ts[2], "cat1");
  }
}
