// The per-thread half of internal/converter/trace.go: trace events, the
// thread-id normalisation `getTid`, and the stack walk of
// `ProcessThreadEvents` that turns one thread's time-ordered events into
// one stack sample per event.

module Trace {
  import opened ProfileModel

  newtype int64 = x: int | -0x8000_0000_0000_0000 <= x < 0x8000_0000_0000_0000

  const TwoTo64: int := 0x1_0000_0000_0000_0000

  /**
    * The dynamic type of a decoded `tid` field. Numbers are integral here
    * (times and ids are modelled as integers), so a float tid carries the
    * value `int64(v)` gives.
    */
  datatype TidValue =
    | FloatTid(f: int64)
    | IntTid(i: int64)
    | Int64Tid(v: int64)
    | StringTid(s: string)
    | OtherTid

  /** One trace event; times in microseconds. The `pid` field is never read by the conversion. */
  datatype TraceEvent = TraceEvent(ph: string, cat: string, name: string, tid: TidValue, ts: int, dur: int)

  /** An event kept for conversion, with its end time. */
  datatype EventWithEnd = EventWithEnd(event: TraceEvent, end: int)

  /** A frame on the stack of active events. */
  datatype StackEntry = StackEntry(event: EventWithEnd, name: string, cat: string)

  /** One emitted sample: frame keys, names and categories root first, and the leaf's duration. */
  datatype StackSample = StackSample(stack: seq<string>, names: seq<string>, cats: seq<string>, timeNs: int)

  // ---------------------------------------------------------------------
  // getTid

  /** `x` reduced to int64 two's complement, as int64 arithmetic wraps. */
  function Wrap64(x: int): (r: int64)
    ensures (r as int - x) % TwoTo64 == 0
  {
    var m := x % TwoTo64;
    (if m < 0x8000_0000_0000_0000 then m else m - TwoTo64) as int64
  }

  /** The base-31 rolling hash of a string's code points, wrapping at every step. */
  function StringHash(s: string): int64
  {
    if s == [] then 0 else Wrap64(StringHash(s[..|s| - 1]) as int * 31 + s[|s| - 1] as int)
  }

  /** The same polynomial in unbounded integers. */
  function Poly(s: string): int
  {
    if s == [] then 0 else Poly(s[..|s| - 1]) * 31 + s[|s| - 1] as int
  }

  /** The normalised thread id. */
  function TidOf(tid: TidValue): int64
  {
    match tid
    case FloatTid(v) => v
    case IntTid(v) => v
    case Int64Tid(v) => v
    case StringTid(s) => StringHash(s)
    case OtherTid => 0
  }

  lemma Wrap64Congruent(x: int, y: int)
    requires (x - y) % TwoTo64 == 0
    ensures Wrap64(x) == Wrap64(y)
  {
    var k := (x - y) / TwoTo64;
    assert x == y + k * TwoTo64;
  }

  /** Wrapping the accumulator before the next step does not change the wrapped result. */
  lemma Wrap64Step(a: int, c: int)
    ensures Wrap64(Wrap64(a) as int * 31 + c) == Wrap64(a * 31 + c)
  {
    var w := Wrap64(a) as int;
    var k := (w - a) / TwoTo64;
    assert w == a + k * TwoTo64;
    assert w * 31 + c == a * 31 + c + (31 * k) * TwoTo64;
    Wrap64Congruent(w * 31 + c, a * 31 + c);
  }

  /** Wrapping at every step of the hash equals wrapping the exact polynomial once. */
  lemma {:induction false} StringHashIsPoly(s: string)
    ensures StringHash(s) == Wrap64(Poly(s))
  {
    if s != [] {
      var init := s[..|s| - 1];
      StringHashIsPoly(init);
      Wrap64Step(Poly(init), s[|s| - 1] as int);
    }
  }

  /** "test" hashes to t*31^3 + e*31^2 + s*31 + t. */
  lemma HashOfTest()
    ensures StringHash("test") == 116 * 29791 + 101 * 961 + 115 * 31 + 116 == 3556498
  {
    assert "test"[..3] == "tes" && "tes"[..2] == "te" && "te"[..1] == "t" && "t"[..0] == "";
    assert StringHash("t") == 116;
    assert StringHash("te") == 3697;
    assert StringHash("tes") == 114722;
  }

  /** getTid: numbers give their int64 value, strings their hash, anything else 0. */
  method GetTid(tid: TidValue) returns (h: int64)
    ensures h == TidOf(tid)
  {
    match tid
    case FloatTid(v) => h := v;
    case IntTid(v) => h := v;
    case Int64Tid(v) => h := v;
    case StringTid(s) =>
      h := 0;
      for i := 0 to |s|
        invariant h == StringHash(s[..i])
      {
        assert s[..i + 1][..i] == s[..i];
        h := Wrap64(h as int * 31 + s[i] as int);
      }
      assert s[..|s|] == s;
    case OtherTid => h := 0;
  }

  // ---------------------------------------------------------------------
  // The stack walk, as functions of the events seen so far.

  /** The frames left after popping those that ended before `ts`. */
  function PopEnded(stack: seq<StackEntry>, ts: int): seq<StackEntry>
  {
    if |stack| > 0 && stack[|stack| - 1].event.end < ts then PopEnded(stack[..|stack| - 1], ts) else stack
  }

  /** The frames, in order, that end no earlier than `end`. */
  function Enclosing(stack: seq<StackEntry>, end: int): seq<StackEntry>
  {
    if stack == [] then []
    else Enclosing(stack[..|stack| - 1], end) + (if stack[|stack| - 1].event.end >= end then [stack[|stack| - 1]] else [])
  }

  /** The ancestors kept for event `e`: pop what ended before it starts, then keep what encloses it. */
  function Retained(stack: seq<StackEntry>, e: EventWithEnd): seq<StackEntry>
  {
    Enclosing(PopEnded(stack, e.event.ts), e.end)
  }

  function Entry(e: EventWithEnd): StackEntry
  {
    StackEntry(e, e.event.name, e.event.cat)
  }

  function Names(stack: seq<StackEntry>): seq<string>
  {
    seq(|stack|, j requires 0 <= j < |stack| => stack[j].name)
  }

  function Cats(stack: seq<StackEntry>): seq<string>
  {
    seq(|stack|, j requires 0 <= j < |stack| => stack[j].cat)
  }

  function Keys(stack: seq<StackEntry>): seq<string>
  {
    seq(|stack|, j requires 0 <= j < |stack| => FrameKey(stack[j].name, stack[j].cat))
  }

  /** Nanoseconds of a duration in microseconds. */
  function DurNs(e: TraceEvent): int
  {
    e.dur * 1000
  }

  /** The sample for event `e` under the ancestors `retained`. */
  function SampleOf(retained: seq<StackEntry>, e: EventWithEnd): StackSample
  {
    StackSample(
      Keys(retained) + [FrameKey(e.event.name, e.event.cat)],
      Names(retained) + [e.event.name],
      Cats(retained) + [e.event.cat],
      DurNs(e.event))
  }

  /** The stack after walking `events`. */
  function StackAfter(events: seq<EventWithEnd>): seq<StackEntry>
  {
    if events == [] then []
    else
      var n := |events| - 1;
      Retained(StackAfter(events[..n]), events[n]) + [Entry(events[n])]
  }

  /** The sample for event `e` after walking `prefix`. */
  function StepSample(prefix: seq<EventWithEnd>, e: EventWithEnd): StackSample
  {
    SampleOf(Retained(StackAfter(prefix), e), e)
  }

  /** The samples emitted while walking `events`. */
  function ThreadSamples(events: seq<EventWithEnd>): seq<StackSample>
  {
    if events == [] then []
    else
      var n := |events| - 1;
      ThreadSamples(events[..n]) + [StepSample(events[..n], events[n])]
  }

  // ---------------------------------------------------------------------
  // ProcessThreadEvents

  /**
    * Walks one thread's events in order, keeping an explicit stack of the
    * active frames, and emits one sample per event.
    */
  method ProcessThreadEvents(events: seq<EventWithEnd>) returns (samples: seq<StackSample>)
    ensures samples == ThreadSamples(events)
  {
    var stack: seq<StackEntry> := [];
    samples := [];
    for k := 0 to |events|
      invariant stack == StackAfter(events[..k])
      invariant samples == ThreadSamples(events[..k])
    {
      assert events[..k + 1][..k] == events[..k];
      var event := events[k];
      var retained := PopAndFilter(stack, event);
      var sample := MakeSample(retained, event);
      stack := retained + [Entry(event)];
      samples := samples + [sample];
    }
    assert events[..|events|] == events;
  }

  /** The two stack-trimming loops of one step. */
  method PopAndFilter(stack: seq<StackEntry>, event: EventWithEnd) returns (kept: seq<StackEntry>)
    ensures kept == Retained(stack, event)
  {
    var s := stack;
    while |s| > 0 && s[|s| - 1].event.end < event.event.ts
      invariant PopEnded(s, event.event.ts) == PopEnded(stack, event.event.ts)
    {
      s := s[..|s| - 1];
    }
    kept := [];
    for j := 0 to |s|
      invariant kept == Enclosing(s[..j], event.end)
    {
      assert s[..j + 1][..j] == s[..j];
      if s[j].event.end >= event.end {
        kept := kept + [s[j]];
      }
    }
    assert s[..|s|] == s;
  }

  /** Fills the names, categories and frame keys of one sample. */
  method MakeSample(retained: seq<StackEntry>, event: EventWithEnd) returns (sample: StackSample)
    ensures sample == SampleOf(retained, event)
  {
    var n := |retained|;
    var names := new string[n + 1];
    var cats := new string[n + 1];
    var stackKey := new string[n + 1];
    for i := 0 to n
      invariant forall j :: 0 <= j < i ==> names[j] == retained[j].name
      invariant forall j :: 0 <= j < i ==> cats[j] == retained[j].cat
      invariant forall j :: 0 <= j < i ==> stackKey[j] == FrameKey(retained[j].name, retained[j].cat)
    {
      names[i] := retained[i].name;
      cats[i] := retained[i].cat;
      stackKey[i] := FrameKey(retained[i].name, retained[i].cat);
    }
    names[n] := event.event.name;
    cats[n] := event.event.cat;
    stackKey[n] := FrameKey(event.event.name, event.event.cat);
    sample := StackSample(stackKey[..], names[..], cats[..], DurNs(event.event));
    assert sample.stack == Keys(retained) + [FrameKey(event.event.name, event.event.cat)];
    assert sample.names == Names(retained) + [event.event.name];
    assert sample.cats == Cats(retained) + [event.event.cat];
  }

  // ---------------------------------------------------------------------
  // Properties of the walk.

  /** A grouped event: positive duration and End = Ts + Dur. */
  ghost predicate Proper(e: EventWithEnd)
  {
    e.event.dur > 0 && e.end == e.event.ts + e.event.dur
  }

  /** End times never increase from the bottom of the stack to its top. */
  ghost predicate NonIncreasing(stack: seq<StackEntry>)
  {
    forall i, j :: 0 <= i < j < |stack| ==> stack[i].event.end >= stack[j].event.end
  }

  /** Frame keys agree with names and categories, and all three have one entry per frame. */
  ghost predicate WellShaped(s: StackSample)
  {
    && |s.stack| == |s.names| == |s.cats| >= 1
    && forall j :: 0 <= j < |s.stack| ==> s.stack[j] == FrameKey(s.names[j], s.cats[j])
  }

  /** The frames kept are exactly those of `stack` that end no earlier than `end`, in order. */
  lemma {:induction false} EnclosingMembers(stack: seq<StackEntry>, end: int)
    ensures |Enclosing(stack, end)| <= |stack|
    ensures forall x :: x in Enclosing(stack, end) <==> x in stack && x.event.end >= end
  {
    if stack != [] {
      var init := stack[..|stack| - 1];
      EnclosingMembers(init, end);
      assert stack == init + [stack[|stack| - 1]];
    }
  }

  /** Pushing a frame that ends no later than every frame below keeps the order. */
  lemma PushNonIncreasing(r: seq<StackEntry>, x: StackEntry)
    requires NonIncreasing(r)
    requires forall i :: 0 <= i < |r| ==> r[i].event.end >= x.event.end
    ensures NonIncreasing(r + [x])
  {
    var s := r + [x];
    forall i, j | 0 <= i < j < |s|
      ensures s[i].event.end >= s[j].event.end
    {
      assert s[i] == r[i];
      if j < |r| {
        assert s[j] == r[j];
      }
    }
  }

  /** Filtering keeps the end times non-increasing. */
  lemma {:induction false} EnclosingNonIncreasing(stack: seq<StackEntry>, end: int)
    requires NonIncreasing(stack)
    ensures NonIncreasing(Enclosing(stack, end))
  {
    if stack != [] {
      var init, top := stack[..|stack| - 1], stack[|stack| - 1];
      assert NonIncreasing(init) by {
        forall i, j | 0 <= i < j < |init|
          ensures init[i].event.end >= init[j].event.end
        {
          assert init[i] == stack[i] && init[j] == stack[j];
        }
      }
      EnclosingNonIncreasing(init, end);
      EnclosingMembers(init, end);
      var r := Enclosing(init, end);
      if top.event.end >= end {
        forall i | 0 <= i < |r| ensures r[i].event.end >= top.event.end {
          assert r[i] in init;
          var k :| 0 <= k < |init| && init[k] == r[i];
          assert stack[k] == r[i];
        }
        PushNonIncreasing(r, top);
        assert Enclosing(stack, end) == r + [top];
      } else {
        assert Enclosing(stack, end) == r + [];
        assert r + [] == r;
      }
    }
  }

  /**
    * Popping the frames that ended before the event starts removes nothing
    * that the filter on End would keep, because End > Ts.
    */
  lemma {:induction false} PopIsSubsumed(stack: seq<StackEntry>, e: EventWithEnd)
    requires e.event.ts < e.end
    ensures Retained(stack, e) == Enclosing(stack, e.end)
  {
    PopSubsumed(stack, e.event.ts, e.end);
  }

  lemma {:induction false} PopSubsumed(stack: seq<StackEntry>, ts: int, end: int)
    requires ts < end
    ensures Enclosing(PopEnded(stack, ts), end) == Enclosing(stack, end)
  {
    if |stack| > 0 && stack[|stack| - 1].event.end < ts {
      PopSubsumed(stack[..|stack| - 1], ts, end);
    }
  }

  /**
    * After each step the event just walked is on top, end times are
    * non-increasing upwards, and the stack is no longer than the number of
    * events walked.
    */
  lemma {:induction false} StackInvariant(events: seq<EventWithEnd>)
    requires forall i :: 0 <= i < |events| ==> Proper(events[i])
    ensures NonIncreasing(StackAfter(events))
    ensures |StackAfter(events)| <= |events|
    ensures events != [] ==> StackAfter(events)[|StackAfter(events)| - 1] == Entry(events[|events| - 1])
  {
    if events != [] {
      var n := |events| - 1;
      var e := events[n];
      assert forall i :: 0 <= i < n ==> events[..n][i] == events[i];
      StackInvariant(events[..n]);
      var prev := StackAfter(events[..n]);
      PopIsSubsumed(prev, e);
      EnclosingMembers(prev, e.end);
      EnclosingNonIncreasing(prev, e.end);
      var r := Enclosing(prev, e.end);
      forall i | 0 <= i < |r| ensures r[i].event.end >= Entry(e).event.end {
        assert r[i] in r;
      }
      PushNonIncreasing(r, Entry(e));
      assert StackAfter(events) == r + [Entry(e)];
    }
  }

  /** The walk emits one sample per event. */
  lemma {:induction false} ThreadSamplesLength(events: seq<EventWithEnd>)
    ensures |ThreadSamples(events)| == |events|
  {
    if events != [] {
      ThreadSamplesLength(events[..|events| - 1]);
    }
  }

  /** Sample `i` is the one for event `i` under the stack left by the events before it. */
  lemma {:induction false} ThreadSampleAt(events: seq<EventWithEnd>, i: nat)
    requires i < |events|
    ensures |ThreadSamples(events)| == |events|
    ensures ThreadSamples(events)[i] == StepSample(events[..i], events[i])
  {
    ThreadSamplesLength(events);
    var n := |events| - 1;
    if i < n {
      ThreadSampleAt(events[..n], i);
      assert events[..n][..i] == events[..i];
    }
  }

  /**
    * The shape of every sample of a walk: names, categories and frame keys
    * line up, the last entry is the event's own, the time is its duration
    * in nanoseconds, and for grouped events the ancestors are the previous
    * stack's frames that enclose the event.
    */
  lemma ThreadSampleShape(events: seq<EventWithEnd>, i: nat)
    requires i < |events|
    ensures |ThreadSamples(events)| == |events|
    ensures var s := ThreadSamples(events)[i];
      && WellShaped(s)
      && s.names[|s.names| - 1] == events[i].event.name
      && s.cats[|s.cats| - 1] == events[i].event.cat
      && s.timeNs == events[i].event.dur * 1000
      && (Proper(events[i]) ==>
            s.names[..|s.names| - 1] == Names(Enclosing(StackAfter(events[..i]), events[i].end)))
  {
    ThreadSampleAt(events, i);
    assert ThreadSamples(events)[i] == SampleOf(Retained(StackAfter(events[..i]), events[i]), events[i]);
    var r := Retained(StackAfter(events[..i]), events[i]);
    var s := ThreadSamples(events)[i];
    assert s.names[..|s.names| - 1] == Names(r);
    if Proper(events[i]) {
      PopIsSubsumed(StackAfter(events[..i]), events[i]);
    }
  }

  // ---------------------------------------------------------------------
  // Nesting: under properly nested intervals whose start ties put the
  // enclosing event first, every sample's ancestors are exactly the
  // earlier events whose intervals contain it.

  /** The interval [ts, end) of `a` contains that of `b`. */
  ghost predicate Contains(a: EventWithEnd, b: EventWithEnd)
  {
    a.event.ts <= b.event.ts && b.end <= a.end
  }

  /** The frames, in order, of the events of `prefix` whose intervals contain that of `e`. */
  ghost function Ancestry(prefix: seq<EventWithEnd>, e: EventWithEnd): seq<StackEntry>
  {
    if prefix == [] then []
    else
      var n := |prefix| - 1;
      Ancestry(prefix[..n], e) + (if Contains(prefix[n], e) then [Entry(prefix[n])] else [])
  }

  ghost predicate StartSorted(events: seq<EventWithEnd>)
  {
    forall i, j :: 0 <= i < j < |events| ==> events[i].event.ts <= events[j].event.ts
  }

  /** Of two events starting together, the longer one comes first. */
  ghost predicate TiesLongerFirst(events: seq<EventWithEnd>)
  {
    forall i, j :: 0 <= i < j < |events| && events[i].event.ts == events[j].event.ts ==> events[j].end <= events[i].end
  }

  /** Any two intervals are disjoint or one contains the other. */
  ghost predicate ProperlyNested(events: seq<EventWithEnd>)
  {
    forall i, j :: 0 <= i < |events| && 0 <= j < |events| ==>
      Contains(events[i], events[j]) || Contains(events[j], events[i])
      || events[i].end <= events[j].event.ts || events[j].end <= events[i].event.ts
  }

  /** `a` may be walked before `b`: it starts no later, and it ends before `b` starts or contains `b`. */
  ghost predicate Precedes(a: EventWithEnd, b: EventWithEnd)
  {
    a.event.ts <= b.event.ts && (a.end <= b.event.ts || b.end <= a.end)
  }

  ghost predicate WalkOrder(events: seq<EventWithEnd>)
  {
    forall i, j :: 0 <= i < j < |events| ==> Precedes(events[i], events[j])
  }

  ghost predicate AllProper(events: seq<EventWithEnd>)
  {
    forall i :: 0 <= i < |events| ==> Proper(events[i])
  }

  /** Nested, start-sorted events with enclosing-first ties are in walk order. */
  lemma NestedWalkOrder(events: seq<EventWithEnd>)
    requires AllProper(events) && StartSorted(events) && TiesLongerFirst(events) && ProperlyNested(events)
    ensures WalkOrder(events)
  {
    forall i, j | 0 <= i < j < |events|
      ensures Precedes(events[i], events[j])
    {
      var a, b := events[i], events[j];
      assert Proper(b);
      if Contains(b, a) && !Contains(a, b) {
        assert a.event.ts == b.event.ts;
      }
    }
  }

  /** Filtering a stack with one more frame on top. */
  lemma EnclosingSnoc(stack: seq<StackEntry>, x: StackEntry, end: int)
    ensures Enclosing(stack + [x], end) == Enclosing(stack, end) + (if x.event.end >= end then [x] else [])
  {
    assert (stack + [x])[..|stack|] == stack;
  }

  /**
    * The ancestors of `x` that also end no earlier than `e` are the
    * ancestors of `e`, when `q`, `x`, `e` come in walk order.
    */
  lemma {:induction false} AncestryNarrows(q: seq<EventWithEnd>, x: EventWithEnd, e: EventWithEnd)
    requires Proper(e) && x.event.ts <= e.event.ts
    requires forall k :: 0 <= k < |q| ==> Precedes(q[k], x)
    ensures Enclosing(Ancestry(q, x), e.end) == Ancestry(q, e)
  {
    if q != [] {
      var n := |q| - 1;
      var init, y := q[..n], q[n];
      assert Precedes(y, x);
      assert forall k :: 0 <= k < n ==> init[k] == q[k];
      AncestryNarrows(init, x, e);
      var a := Ancestry(init, x);
      assert Contains(y, x) && y.end >= e.end <==> Contains(y, e);
      if Contains(y, x) {
        assert Ancestry(q, x) == a + [Entry(y)];
        EnclosingSnoc(a, Entry(y), e.end);
      } else {
        assert Ancestry(q, x) == a + [] == a;
      }
      if Contains(y, e) {
        assert Ancestry(q, e) == Ancestry(init, e) + [Entry(y)];
      } else {
        assert Ancestry(q, e) == Ancestry(init, e) + [] == Ancestry(init, e);
      }
    }
  }

  /** Walking events in walk order leaves, filtered for the next event, exactly its ancestors. */
  lemma {:induction false} RetainedIsAncestry(prefix: seq<EventWithEnd>, e: EventWithEnd)
    requires AllProper(prefix) && Proper(e) && WalkOrder(prefix)
    requires forall k :: 0 <= k < |prefix| ==> Precedes(prefix[k], e)
    ensures Retained(StackAfter(prefix), e) == Ancestry(prefix, e)
  {
    PopIsSubsumed(StackAfter(prefix), e);
    if prefix != [] {
      var n := |prefix| - 1;
      var q, x := prefix[..n], prefix[n];
      assert forall k :: 0 <= k < n ==> q[k] == prefix[k];
      assert Proper(x) && Precedes(x, e);
      assert forall k :: 0 <= k < n ==> Precedes(q[k], x);
      RetainedIsAncestry(q, x);
      var a := Ancestry(q, x);
      assert StackAfter(prefix) == a + [Entry(x)];
      EnclosingSnoc(a, Entry(x), e.end);
      AncestryNarrows(q, x, e);
      assert Contains(x, e) <==> x.end >= e.end;
      if !Contains(x, e) {
        assert Ancestry(prefix, e) == Ancestry(q, e) + [];
      }
    }
  }

  /**
    * For properly nested, start-sorted events whose ties put the enclosing
    * event first, sample `i` lists as ancestors the earlier events whose
    * intervals contain event `i`, in walk order, then event `i` itself.
    */
  lemma NestedSample(events: seq<EventWithEnd>, i: nat)
    requires i < |events|
    requires AllProper(events) && StartSorted(events) && TiesLongerFirst(events) && ProperlyNested(events)
    ensures |ThreadSamples(events)| == |events|
    ensures ThreadSamples(events)[i] == SampleOf(Ancestry(events[..i], events[i]), events[i])
  {
    ThreadSampleAt(events, i);
    NestedWalkOrder(events);
    var prefix := events[..i];
    assert forall k :: 0 <= k < i ==> prefix[k] == events[k];
    RetainedIsAncestry(prefix, events[i]);
  }

  /** Events that contain none of `e` add no ancestors. */
  lemma {:induction false} AncestryNone(a: seq<EventWithEnd>, b: seq<EventWithEnd>, e: EventWithEnd)
    requires forall k :: 0 <= k < |b| ==> !Contains(b[k], e)
    ensures Ancestry(a + b, e) == Ancestry(a, e)
  {
    if b == [] {
      assert a + b == a;
    } else {
      var n := |b| - 1;
      assert (a + b)[..|a + b| - 1] == a + b[..n];
      assert (a + b)[|a + b| - 1] == b[n];
      AncestryNone(a, b[..n], e);
    }
  }

  /** Events that contain `x` exactly when they contain `e` give the two the same ancestors. */
  lemma {:induction false} AncestryAgree(q: seq<EventWithEnd>, x: EventWithEnd, e: EventWithEnd)
    requires forall k :: 0 <= k < |q| ==> (Contains(q[k], x) <==> Contains(q[k], e))
    ensures Ancestry(q, x) == Ancestry(q, e)
  {
    if q != [] {
      AncestryAgree(q[..|q| - 1], x, e);
    }
  }

  lemma FramesSnoc(a: seq<StackEntry>, x: StackEntry)
    ensures Names(a + [x]) == Names(a) + [x.name]
    ensures Cats(a + [x]) == Cats(a) + [x.cat]
    ensures Keys(a + [x]) == Keys(a) + [FrameKey(x.name, x.cat)]
  {
  }

  /** The ancestors of a nested child are those of its innermost parent, then the parent. */
  lemma ChildAncestry(events: seq<EventWithEnd>, p: nat, i: nat)
    requires p < i < |events|
    requires AllProper(events) && WalkOrder(events)
    requires Contains(events[p], events[i])
    requires forall j :: p < j < i ==> !Contains(events[j], events[i])
    ensures Ancestry(events[..i], events[i]) == Ancestry(events[..p], events[p]) + [Entry(events[p])]
  {
    var x, e := events[p], events[i];
    var q := events[..p];
    assert Proper(e) && Precedes(x, e);
    forall k | 0 <= k < p
      ensures Contains(q[k], x) <==> Contains(q[k], e)
    {
      assert q[k] == events[k];
      assert Precedes(events[k], x);
    }
    AncestryAgree(q, x, e);
    var head, rest := events[..p + 1], events[p + 1..i];
    assert events[..i] == head + rest;
    forall k | 0 <= k < |rest| ensures !Contains(rest[k], e) {
      assert rest[k] == events[p + 1 + k];
    }
    AncestryNone(head, rest, e);
    assert head[..p] == q && head[p] == x;
  }

  /**
    * A nested child's sample is its innermost parent's sample with the
    * child appended as the new leaf: frame keys, names and categories.
    */
  lemma ChildExtendsParent(events: seq<EventWithEnd>, p: nat, i: nat)
    requires p < i < |events|
    requires AllProper(events) && StartSorted(events) && TiesLongerFirst(events) && ProperlyNested(events)
    requires Contains(events[p], events[i])
    requires forall j :: p < j < i ==> !Contains(events[j], events[i])
    ensures |ThreadSamples(events)| == |events|
    ensures var parent, child := ThreadSamples(events)[p], ThreadSamples(events)[i];
      && child.stack == parent.stack + [FrameKey(events[i].event.name, events[i].event.cat)]
      && child.names == parent.names + [events[i].event.name]
      && child.cats == parent.cats + [events[i].event.cat]
  {
    NestedSample(events, p);
    NestedSample(events, i);
    NestedWalkOrder(events);
    ChildAncestry(events, p, i);
    FramesSnoc(Ancestry(events[..p], events[p]), Entry(events[p]));
  }

  /** The two events of the tie below, as a child `b` nested in its parent `a`. */
  function TieParent(): EventWithEnd
  {
    EventWithEnd(TraceEvent("X", "c", "a", IntTid(1), 0, 100), 100)
  }

  function TieChild(): EventWithEnd
  {
    EventWithEnd(TraceEvent("X", "c", "b", IntTid(1), 0, 30), 30)
  }

  /** The samples of a walk of two events. */
  lemma TwoEventWalk(x: EventWithEnd, e: EventWithEnd)
    ensures |ThreadSamples([x, e])| == 2
    ensures ThreadSamples([x, e])[0] == SampleOf([], x)
    ensures ThreadSamples([x, e])[1] == SampleOf(Retained([Entry(x)], e), e)
  {
    ThreadSampleAt([x, e], 0);
    ThreadSampleAt([x, e], 1);
    assert [x, e][..1] == [x] && [x, e][..1][..0] == [] && [x, e][..0] == [];
    assert StackAfter([x]) == Retained([], x) + [Entry(x)];
  }

  /**
    * `b` = [0, 30) is nested in `a` = [0, 100): both start together, and
    * only the parent-first order has its ties enclosing first.
    */
  lemma TieEvents()
    ensures var a, b := TieParent(), TieChild();
      && Proper(a) && Proper(b) && a.event.ts == b.event.ts && b.end < a.end
      && TiesLongerFirst([a, b]) && !TiesLongerFirst([b, a])
  {
    var a, b := TieParent(), TieChild();
    assert [b, a][0] == b && [b, a][1] == a;
  }

  /** A parent walked first stays the ancestor of a shorter child that starts with it. */
  lemma ParentFirstWalk(a: EventWithEnd, b: EventWithEnd)
    requires Proper(b) && a.event.ts == b.event.ts && b.end < a.end
    ensures |ThreadSamples([a, b])| == 2 && ThreadSamples([a, b])[1].names == [a.event.name, b.event.name]
  {
    TwoEventWalk(a, b);
    assert Retained([Entry(a)], b) == [Entry(a)] by {
      PopIsSubsumed([Entry(a)], b);
      assert [Entry(a)][..0] == [];
      assert Enclosing([Entry(a)], b.end) == Enclosing([], b.end) + [Entry(a)];
    }
    assert Names([Entry(a)]) == [a.event.name];
  }

  /** A child walked first has no ancestor, and its parent walked next does not keep it. */
  lemma ChildFirstWalk(a: EventWithEnd, b: EventWithEnd)
    requires Proper(a) && a.event.ts == b.event.ts && b.end < a.end
    ensures |ThreadSamples([b, a])| == 2
    ensures ThreadSamples([b, a])[0].names == [b.event.name]
    ensures ThreadSamples([b, a])[1].names == [a.event.name]
  {
    TwoEventWalk(b, a);
    assert Retained([Entry(b)], a) == [] by {
      PopIsSubsumed([Entry(b)], a);
      assert [Entry(b)][..0] == [];
      assert Enclosing([Entry(b)], a.end) == Enclosing([], a.end) + [];
    }
    assert Names([]) == [];
  }

  /**
    * With only the start time as sort key, a parent and a shorter child
    * starting together may be walked in either order, both sorted by start.
    * Parent first, the child's sample is [parent, child]; child first, the
    * child's sample is [child] alone: it loses its parent.
    */
  lemma TieOrderLosesParent(a: EventWithEnd, b: EventWithEnd)
    requires Proper(a) && Proper(b) && a.event.ts == b.event.ts && b.end < a.end
    ensures Contains(a, b) && StartSorted([a, b]) && StartSorted([b, a])
    ensures |ThreadSamples([a, b])| == 2 && ThreadSamples([a, b])[1].names == [a.event.name, b.event.name]
    ensures |ThreadSamples([b, a])| == 2 && ThreadSamples([b, a])[0].names == [b.event.name]
  {
    ParentFirstWalk(a, b);
    ChildFirstWalk(a, b);
    assert [b, a][0] == b && [b, a][1] == a;
  }
}
