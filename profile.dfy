// The pprof profile message of internal/profile/profile.go and its
// hand-written Protocol Buffers encoder, with a reader that inverts it.

module ProfileModel {
  import opened Options
  import opened Wire

  datatype ValueType = ValueType(typ: int, unit: int)

  /** Location ids leaf first, and the value vector. */
  datatype Sample = Sample(locationId: seq<nat>, value: seq<int>)

  datatype Line = Line(functionId: nat, line: int)

  datatype Location = Location(id: nat, line: seq<Line>)

  /** Name, SystemName and Filename are indices into the string table. */
  datatype Function = Function(id: nat, name: int, systemName: int, filename: int)

  datatype Profile = Profile(
    sampleType: seq<ValueType>,
    samples: seq<Sample>,
    locations: seq<Location>,
    functions: seq<Function>,
    stringTable: seq<string>,
    timeNanos: int,
    durationNanos: int,
    periodType: Option<ValueType>,
    period: int)

  /** The key under which a (name, file) pair is interned: name + "\x00" + file. */
  function FrameKey(name: string, file: string): string
  {
    name + "\0" + file
  }

  /** In the key of a NUL-free name, the first NUL sits right after the name. */
  lemma FirstNul(name: string, file: string)
    requires '\0' !in name
    ensures forall i :: 0 <= i < |name| ==> FrameKey(name, file)[i] != '\0'
    ensures FrameKey(name, file)[|name|] == '\0'
  {
    forall i | 0 <= i < |name|
      ensures FrameKey(name, file)[i] != '\0'
    {
      assert FrameKey(name, file)[i] == name[i];
    }
  }

  /** Names free of NUL make the key injective: equal keys come from equal pairs. */
  lemma FrameKeyInjective(n1: string, f1: string, n2: string, f2: string)
    requires '\0' !in n1 && '\0' !in n2
    ensures FrameKey(n1, f1) == FrameKey(n2, f2) <==> n1 == n2 && f1 == f2
  {
    var k1, k2 := FrameKey(n1, f1), FrameKey(n2, f2);
    if k1 == k2 {
      FirstNul(n1, f1);
      FirstNul(n2, f2);
      assert |n1| == |n2|;
      assert n1 == k1[..|n1|] == k2[..|n2|] == n2;
      assert f1 == k1[|n1| + 1..] == k2[|n2| + 1..] == f2;
    }
  }

  /** A NUL inside a name lets two different (name, file) pairs share a key. */
  lemma FrameKeyCollision()
    ensures FrameKey("a\0b", "c") == FrameKey("a", "b\0c")
  {
    assert FrameKey("a\0b", "c") == "a\0b\0c";
    assert FrameKey("a", "b\0c") == "a\0b\0c";
  }

  // ---------------------------------------------------------------------
  // Structural validity of a profile: every reference resolves.

  ghost predicate StringRef(p: Profile, idx: int)
  {
    0 <= idx < |p.stringTable|
  }

  ghost predicate ValueTypeOk(p: Profile, vt: ValueType)
  {
    StringRef(p, vt.typ) && StringRef(p, vt.unit)
  }

  ghost predicate SampleTypeOk(p: Profile, i: int)
  {
    0 <= i < |p.sampleType| && ValueTypeOk(p, p.sampleType[i])
  }

  /** Function i has id i + 1 and its three strings resolve. */
  ghost predicate FunctionOk(p: Profile, i: int)
  {
    && 0 <= i < |p.functions|
    && p.functions[i].id == i + 1
    && StringRef(p, p.functions[i].name)
    && StringRef(p, p.functions[i].systemName)
    && StringRef(p, p.functions[i].filename)
  }

  /** Location i has id i + 1 and at least one line, each naming a function. */
  ghost predicate LocationOk(p: Profile, i: int)
  {
    && 0 <= i < |p.locations|
    && p.locations[i].id == i + 1
    && |p.locations[i].line| >= 1
    && (forall j :: 0 <= j < |p.locations[i].line| ==>
          1 <= p.locations[i].line[j].functionId <= |p.functions|)
  }

  /** Every location id of sample i names a location. */
  ghost predicate SampleOk(p: Profile, i: int)
  {
    && 0 <= i < |p.samples|
    && (forall j :: 0 <= j < |p.samples[i].locationId| ==>
          1 <= p.samples[i].locationId[j] <= |p.locations|)
  }

  /**
   * Every reference of the profile resolves. The per-element conditions are
   * named predicates, so that their quantifiers fire only where a proof
   * mentions an element.
   */
  ghost predicate WellFormed(p: Profile)
  {
    && |p.stringTable| >= 1 && p.stringTable[0] == ""
    && (forall i :: 0 <= i < |p.sampleType| ==> SampleTypeOk(p, i))
    && (p.periodType.Some? ==> ValueTypeOk(p, p.periodType.value))
    && (forall i :: 0 <= i < |p.functions| ==> FunctionOk(p, i))
    && (forall i :: 0 <= i < |p.locations| ==> LocationOk(p, i))
    && (forall i :: 0 <= i < |p.samples| ==> SampleOk(p, i))
  }

  // ---------------------------------------------------------------------
  // Integer conversions at the wire boundary.

  const TwoTo63: int := 0x8000_0000_0000_0000
  const TwoTo64: int := 0x1_0000_0000_0000_0000

  predicate IsInt64(x: int)
  {
    -TwoTo63 <= x < TwoTo63
  }

  /** Go's uint64(x) on an int64: two's complement. */
  function U64(x: int): (r: nat)
    ensures r < TwoTo64
    ensures 0 <= x < TwoTo64 ==> r == x
    ensures -TwoTo63 <= x < 0 ==> r == x + TwoTo64
  {
    x % TwoTo64
  }

  /** Reads a uint64 from the wire back as an int64. */
  function FromU64(u: nat): int
  {
    if u >= TwoTo63 then u - TwoTo64 else u
  }

  function U64s(xs: seq<int>): (r: seq<nat>)
    ensures |r| == |xs|
  {
    seq(|xs|, i requires 0 <= i < |xs| => U64(xs[i]))
  }

  function FromU64s(us: seq<nat>): (r: seq<int>)
    ensures |r| == |us|
  {
    seq(|us|, i requires 0 <= i < |us| => FromU64(us[i]))
  }

  lemma U64RoundTrip(x: int)
    requires IsInt64(x)
    ensures FromU64(U64(x)) == x
  {
  }

  lemma U64sRoundTrip(xs: seq<int>)
    requires forall i :: 0 <= i < |xs| ==> IsInt64(xs[i])
    ensures FromU64s(U64s(xs)) == xs
  {
  }

  // ---------------------------------------------------------------------
  // The encoders, in the order and shape the source appends bytes.

  /** A varint scalar field that is left out when its value is zero. */
  function OptionalScalar(num: nat, v: int): seq<byte>
  {
    if v != 0 then EncodeTag(num, WireVarint) + Varint(U64(v)) else []
  }

  /** Repeated length-delimited fields, one per message: tag, length, payload. */
  function Embedded(num: nat, msgs: seq<seq<byte>>): seq<byte>
  {
    if msgs == [] then []
    else EncodeTag(num, WireBytes) + Varint(|msgs[0]|) + msgs[0] + Embedded(num, msgs[1..])
  }

  function EncodeValueType(vt: ValueType): seq<byte>
  {
    EncodeTag(1, WireVarint) + Varint(U64(vt.typ))
    + EncodeTag(2, WireVarint) + Varint(U64(vt.unit))
  }

  function EncodeSample(s: Sample): seq<byte>
  {
    (if |s.locationId| > 0 then
       var packed := PackVarints(s.locationId);
       EncodeTag(1, WireBytes) + Varint(|packed|) + packed
     else [])
    + (if |s.value| > 0 then
         var packed := PackVarints(U64s(s.value));
         EncodeTag(2, WireBytes) + Varint(|packed|) + packed
       else [])
  }

  function EncodeLine(line: Line): seq<byte>
  {
    EncodeTag(1, WireVarint) + Varint(line.functionId) + OptionalScalar(2, line.line)
  }

  function LineMsgs(lines: seq<Line>): (r: seq<seq<byte>>)
    ensures |r| == |lines|
  {
    if lines == [] then [] else [EncodeLine(lines[0])] + LineMsgs(lines[1..])
  }

  function EncodeLocation(loc: Location): seq<byte>
  {
    EncodeTag(1, WireVarint) + Varint(loc.id) + Embedded(4, LineMsgs(loc.line))
  }

  function EncodeFunction(fn: Function): seq<byte>
  {
    EncodeTag(1, WireVarint) + Varint(fn.id)
    + EncodeTag(2, WireVarint) + Varint(U64(fn.name))
    + EncodeTag(3, WireVarint) + Varint(U64(fn.systemName))
    + EncodeTag(4, WireVarint) + Varint(U64(fn.filename))
  }

  function ValueTypeMsgs(xs: seq<ValueType>): (r: seq<seq<byte>>)
    ensures |r| == |xs|
  {
    if xs == [] then [] else [EncodeValueType(xs[0])] + ValueTypeMsgs(xs[1..])
  }

  function SampleMsgs(xs: seq<Sample>): (r: seq<seq<byte>>)
    ensures |r| == |xs|
  {
    if xs == [] then [] else [EncodeSample(xs[0])] + SampleMsgs(xs[1..])
  }

  function LocationMsgs(xs: seq<Location>): (r: seq<seq<byte>>)
    ensures |r| == |xs|
  {
    if xs == [] then [] else [EncodeLocation(xs[0])] + LocationMsgs(xs[1..])
  }

  function FunctionMsgs(xs: seq<Function>): (r: seq<seq<byte>>)
    ensures |r| == |xs|
  {
    if xs == [] then [] else [EncodeFunction(xs[0])] + FunctionMsgs(xs[1..])
  }

  function StringMsgs(xs: seq<string>): (r: seq<seq<byte>>)
    ensures |r| == |xs|
  {
    if xs == [] then [] else [Utf8(xs[0])] + StringMsgs(xs[1..])
  }

  function PeriodTypeMsgs(pt: Option<ValueType>): seq<seq<byte>>
  {
    match pt
    case None => []
    case Some(vt) => [EncodeValueType(vt)]
  }

  /** Profile.Encode: fields 1, 2, 4, 5, 6, then the optional 9, 10, 11, 12. */
  function Encode(p: Profile): seq<byte>
  {
    Embedded(1, ValueTypeMsgs(p.sampleType))
    + Embedded(2, SampleMsgs(p.samples))
    + Embedded(4, LocationMsgs(p.locations))
    + Embedded(5, FunctionMsgs(p.functions))
    + Embedded(6, StringMsgs(p.stringTable))
    + OptionalScalar(9, p.timeNanos)
    + OptionalScalar(10, p.durationNanos)
    + Embedded(11, PeriodTypeMsgs(p.periodType))
    + OptionalScalar(12, p.period)
  }

  // ---------------------------------------------------------------------
  // The field lists each encoder writes (the message schema).

  function BytesFields(num: nat, msgs: seq<seq<byte>>): (r: seq<Field>)
    ensures |r| == |msgs|
  {
    if msgs == [] then [] else [BytesField(num, msgs[0])] + BytesFields(num, msgs[1..])
  }

  /** Some field of `fs` carries the number `num`. */
  ghost predicate HasField(fs: seq<Field>, num: nat)
  {
    exists i :: 0 <= i < |fs| && fs[i].num == num
  }

  function ScalarFields(num: nat, v: int): seq<Field>
  {
    if v != 0 then [VarintField(num, U64(v))] else []
  }

  function ValueTypeFields(vt: ValueType): seq<Field>
  {
    [VarintField(1, U64(vt.typ)), VarintField(2, U64(vt.unit))]
  }

  function SampleFields(s: Sample): seq<Field>
  {
    (if |s.locationId| > 0 then [BytesField(1, PackVarints(s.locationId))] else [])
    + (if |s.value| > 0 then [BytesField(2, PackVarints(U64s(s.value)))] else [])
  }

  function LineFields(line: Line): seq<Field>
  {
    [VarintField(1, line.functionId)] + ScalarFields(2, line.line)
  }

  function LocationFields(loc: Location): seq<Field>
  {
    [VarintField(1, loc.id)] + BytesFields(4, LineMsgs(loc.line))
  }

  function FunctionFields(fn: Function): seq<Field>
  {
    [VarintField(1, fn.id), VarintField(2, U64(fn.name)),
     VarintField(3, U64(fn.systemName)), VarintField(4, U64(fn.filename))]
  }

  /** Fields 1, 2, 4, 5 and 6: one per element of each repeated field. */
  function RepeatedFields(p: Profile): seq<Field>
  {
    BytesFields(1, ValueTypeMsgs(p.sampleType))
    + BytesFields(2, SampleMsgs(p.samples))
    + BytesFields(4, LocationMsgs(p.locations))
    + BytesFields(5, FunctionMsgs(p.functions))
    + BytesFields(6, StringMsgs(p.stringTable))
  }

  function ProfileFields(p: Profile): seq<Field>
  {
    RepeatedFields(p)
    + ScalarFields(9, p.timeNanos)
    + ScalarFields(10, p.durationNanos)
    + BytesFields(11, PeriodTypeMsgs(p.periodType))
    + ScalarFields(12, p.period)
  }

  // ---------------------------------------------------------------------
  // Each encoder writes exactly its field list.

  lemma {:induction false} EmbeddedIsFields(num: nat, msgs: seq<seq<byte>>)
    ensures Embedded(num, msgs) == EncodeFields(BytesFields(num, msgs))
  {
    if msgs != [] {
      EmbeddedIsFields(num, msgs[1..]);
      assert BytesFields(num, msgs)[1..] == BytesFields(num, msgs[1..]);
    }
  }

  lemma ScalarIsFields(num: nat, v: int)
    ensures OptionalScalar(num, v) == EncodeFields(ScalarFields(num, v))
  {
    if v != 0 {
      assert EncodeFields([VarintField(num, U64(v))]) == EncodeField(VarintField(num, U64(v))) + EncodeFields([]);
    }
  }

  lemma Fields2(a: Field, b: Field)
    ensures EncodeFields([a, b]) == EncodeField(a) + EncodeField(b)
  {
    assert [a, b][1..] == [b];
    assert EncodeFields([b]) == EncodeField(b) + EncodeFields([]);
  }

  lemma ValueTypeIsFields(vt: ValueType)
    ensures EncodeValueType(vt) == EncodeFields(ValueTypeFields(vt))
  {
    Fields2(VarintField(1, U64(vt.typ)), VarintField(2, U64(vt.unit)));
  }

  lemma SampleIsFields(s: Sample)
    ensures EncodeSample(s) == EncodeFields(SampleFields(s))
  {
    var a := if |s.locationId| > 0 then [BytesField(1, PackVarints(s.locationId))] else [];
    var b := if |s.value| > 0 then [BytesField(2, PackVarints(U64s(s.value)))] else [];
    EncodeFieldsAppend(a, b);
    if a != [] {
      assert EncodeFields(a) == EncodeField(a[0]) + EncodeFields([]);
    }
    if b != [] {
      assert EncodeFields(b) == EncodeField(b[0]) + EncodeFields([]);
    }
  }

  lemma LineIsFields(line: Line)
    ensures EncodeLine(line) == EncodeFields(LineFields(line))
  {
    var head := [VarintField(1, line.functionId)];
    EncodeFieldsAppend(head, ScalarFields(2, line.line));
    assert EncodeFields(head) == EncodeField(head[0]) + EncodeFields([]);
    ScalarIsFields(2, line.line);
  }

  lemma LocationIsFields(loc: Location)
    ensures EncodeLocation(loc) == EncodeFields(LocationFields(loc))
  {
    var head := [VarintField(1, loc.id)];
    EncodeFieldsAppend(head, BytesFields(4, LineMsgs(loc.line)));
    assert EncodeFields(head) == EncodeField(head[0]) + EncodeFields([]);
    EmbeddedIsFields(4, LineMsgs(loc.line));
  }

  lemma FunctionIsFields(fn: Function)
    ensures EncodeFunction(fn) == EncodeFields(FunctionFields(fn))
  {
    var fs := FunctionFields(fn);
    var e1, e2, e3, e4 := EncodeField(fs[0]), EncodeField(fs[1]), EncodeField(fs[2]), EncodeField(fs[3]);
    assert EncodeFields(fs) == e1 + e2 + e3 + e4 by {
      Fields2(fs[0], fs[1]);
      Fields2(fs[2], fs[3]);
      assert fs == [fs[0], fs[1]] + [fs[2], fs[3]];
      EncodeFieldsAppend([fs[0], fs[1]], [fs[2], fs[3]]);
    }
    var t2, v2 := EncodeTag(2, WireVarint), Varint(U64(fn.name));
    var t3, v3 := EncodeTag(3, WireVarint), Varint(U64(fn.systemName));
    var t4, v4 := EncodeTag(4, WireVarint), Varint(U64(fn.filename));
    assert e1 + t2 + v2 == e1 + e2;
    assert e1 + e2 + t3 + v3 == e1 + e2 + e3;
    assert e1 + e2 + e3 + t4 + v4 == e1 + e2 + e3 + e4;
  }

  /** Encode writes exactly the fields ProfileFields lists, in that order. */
  lemma EncodeIsFields(p: Profile)
    ensures Encode(p) == EncodeFields(ProfileFields(p))
  {
    var f1 := BytesFields(1, ValueTypeMsgs(p.sampleType));
    var f2 := BytesFields(2, SampleMsgs(p.samples));
    var f4 := BytesFields(4, LocationMsgs(p.locations));
    var f5 := BytesFields(5, FunctionMsgs(p.functions));
    var f6 := BytesFields(6, StringMsgs(p.stringTable));
    var f9 := ScalarFields(9, p.timeNanos);
    var f10 := ScalarFields(10, p.durationNanos);
    var f11 := BytesFields(11, PeriodTypeMsgs(p.periodType));
    var f12 := ScalarFields(12, p.period);
    EmbeddedIsFields(1, ValueTypeMsgs(p.sampleType));
    EmbeddedIsFields(2, SampleMsgs(p.samples));
    EmbeddedIsFields(4, LocationMsgs(p.locations));
    EmbeddedIsFields(5, FunctionMsgs(p.functions));
    EmbeddedIsFields(6, StringMsgs(p.stringTable));
    ScalarIsFields(9, p.timeNanos);
    ScalarIsFields(10, p.durationNanos);
    EmbeddedIsFields(11, PeriodTypeMsgs(p.periodType));
    ScalarIsFields(12, p.period);
    EncodeFieldsAppend(f1, f2);
    EncodeFieldsAppend(f1 + f2, f4);
    EncodeFieldsAppend(f1 + f2 + f4, f5);
    EncodeFieldsAppend(f1 + f2 + f4 + f5, f6);
    EncodeFieldsAppend(f1 + f2 + f4 + f5 + f6, f9);
    EncodeFieldsAppend(f1 + f2 + f4 + f5 + f6 + f9, f10);
    EncodeFieldsAppend(f1 + f2 + f4 + f5 + f6 + f9 + f10, f11);
    EncodeFieldsAppend(f1 + f2 + f4 + f5 + f6 + f9 + f10 + f11, f12);
  }

  /**
   * The bytes Encode writes split, under the wire-format reader, into exactly
   * the fields of ProfileFields: every length-delimited field is its tag, the
   * varint of its length and its payload.
   */
  lemma EncodeLayout(p: Profile)
    ensures DecodeFields(Encode(p)) == Some(ProfileFields(p))
  {
    EncodeIsFields(p);
    FieldsRoundTrip(ProfileFields(p));
  }

  // ---------------------------------------------------------------------
  // Field order and zero-value elision.

  function FieldNum(f: Field): nat
  {
    match f
    case VarintField(n, _) => n
    case BytesField(n, _) => n
  }

  /** The field numbers of the Profile message that Encode writes. */
  const ProfileNums: set<nat> := {1, 2, 4, 5, 6, 9, 10, 11, 12}

  ghost predicate AllNum(fs: seq<Field>, num: nat)
  {
    forall i :: 0 <= i < |fs| ==> FieldNum(fs[i]) == num
  }

  /** Field numbers are drawn from `nums`, never exceed `hi`, and never decrease. */
  ghost predicate OrderedIn(fs: seq<Field>, nums: set<nat>, hi: nat)
  {
    && (forall i :: 0 <= i < |fs| ==> FieldNum(fs[i]) in nums && FieldNum(fs[i]) <= hi)
    && (forall i, j :: 0 <= i < j < |fs| ==> FieldNum(fs[i]) <= FieldNum(fs[j]))
  }

  lemma ExtendOrdered(a: seq<Field>, b: seq<Field>, nums: set<nat>, hi: nat, num: nat)
    requires OrderedIn(a, nums, hi) && hi <= num && num in nums && AllNum(b, num)
    ensures OrderedIn(a + b, nums, num)
  {
    forall i, j | 0 <= i < j < |a + b|
      ensures FieldNum((a + b)[i]) <= FieldNum((a + b)[j])
    {
      if j >= |a| {
        assert (a + b)[j] == b[j - |a|];
      }
    }
    forall i | 0 <= i < |a + b|
      ensures FieldNum((a + b)[i]) in nums && FieldNum((a + b)[i]) <= num
    {
      if i >= |a| {
        assert (a + b)[i] == b[i - |a|];
      }
    }
  }

  lemma ScalarAllNum(num: nat, v: int)
    ensures AllNum(ScalarFields(num, v), num)
  {
  }

  lemma {:induction false} BytesAllNum(num: nat, msgs: seq<seq<byte>>)
    ensures AllNum(BytesFields(num, msgs), num)
  {
    if msgs != [] {
      BytesAllNum(num, msgs[1..]);
    }
  }

  /**
   * Encode writes field numbers in non-decreasing order, each one of
   * 1, 2, 4, 5, 6, 9, 10, 11, 12: all sample types, then samples,
   * locations, functions, strings, and the trailing scalars.
   */
  lemma EncodeFieldOrder(p: Profile)
    ensures OrderedIn(ProfileFields(p), ProfileNums, 12)
  {
    var f1 := BytesFields(1, ValueTypeMsgs(p.sampleType));
    var f2 := BytesFields(2, SampleMsgs(p.samples));
    var f4 := BytesFields(4, LocationMsgs(p.locations));
    var f5 := BytesFields(5, FunctionMsgs(p.functions));
    var f6 := BytesFields(6, StringMsgs(p.stringTable));
    var f9 := ScalarFields(9, p.timeNanos);
    var f10 := ScalarFields(10, p.durationNanos);
    var f11 := BytesFields(11, PeriodTypeMsgs(p.periodType));
    var f12 := ScalarFields(12, p.period);
    BytesAllNum(1, ValueTypeMsgs(p.sampleType));
    BytesAllNum(2, SampleMsgs(p.samples));
    BytesAllNum(4, LocationMsgs(p.locations));
    BytesAllNum(5, FunctionMsgs(p.functions));
    BytesAllNum(6, StringMsgs(p.stringTable));
    BytesAllNum(11, PeriodTypeMsgs(p.periodType));
    ScalarAllNum(9, p.timeNanos);
    ScalarAllNum(10, p.durationNanos);
    ScalarAllNum(12, p.period);
    var g0: seq<Field> := [];
    ExtendOrdered(g0, f1, ProfileNums, 0, 1);
    var g1 := g0 + f1;
    ExtendOrdered(g1, f2, ProfileNums, 1, 2);
    var g2 := g1 + f2;
    ExtendOrdered(g2, f4, ProfileNums, 2, 4);
    var g4 := g2 + f4;
    ExtendOrdered(g4, f5, ProfileNums, 4, 5);
    var g5 := g4 + f5;
    ExtendOrdered(g5, f6, ProfileNums, 5, 6);
    var g6 := g5 + f6;
    ExtendOrdered(g6, f9, ProfileNums, 6, 9);
    var g9 := g6 + f9;
    ExtendOrdered(g9, f10, ProfileNums, 9, 10);
    var g10 := g9 + f10;
    ExtendOrdered(g10, f11, ProfileNums, 10, 11);
    var g11 := g10 + f11;
    ExtendOrdered(g11, f12, ProfileNums, 11, 12);
    assert g0 + f1 == f1;
    assert g11 + f12 == ProfileFields(p);
  }

  function CountNum(fs: seq<Field>, num: nat): (r: nat)
    ensures r <= |fs|
  {
    if fs == [] then 0 else (if FieldNum(fs[0]) == num then 1 else 0) + CountNum(fs[1..], num)
  }

  lemma {:induction false} CountNumAppend(a: seq<Field>, b: seq<Field>, num: nat)
    ensures CountNum(a + b, num) == CountNum(a, num) + CountNum(b, num)
  {
    if a == [] {
      assert a + b == b;
    } else {
      assert (a + b)[1..] == a[1..] + b;
      CountNumAppend(a[1..], b, num);
    }
  }

  lemma {:induction false} CountAllNum(fs: seq<Field>, num: nat, other: nat)
    requires AllNum(fs, num)
    ensures CountNum(fs, other) == if other == num then |fs| else 0
  {
    if fs != [] {
      CountAllNum(fs[1..], num, other);
    }
  }

  /**
   * How many times each field number occurs: one field 1, 2, 4, 5, 6 per
   * element; 9, 10 and 12 once exactly when the value is non-zero; 11 once
   * exactly when PeriodType is set.
   */
  lemma EncodeFieldCounts(p: Profile)
    ensures CountNum(ProfileFields(p), 1) == |p.sampleType|
    ensures CountNum(ProfileFields(p), 2) == |p.samples|
    ensures CountNum(ProfileFields(p), 4) == |p.locations|
    ensures CountNum(ProfileFields(p), 5) == |p.functions|
    ensures CountNum(ProfileFields(p), 6) == |p.stringTable|
    ensures CountNum(ProfileFields(p), 9) == (if p.timeNanos != 0 then 1 else 0)
    ensures CountNum(ProfileFields(p), 10) == (if p.durationNanos != 0 then 1 else 0)
    ensures CountNum(ProfileFields(p), 11) == (if p.periodType.Some? then 1 else 0)
    ensures CountNum(ProfileFields(p), 12) == (if p.period != 0 then 1 else 0)
  {
    CountProfileFields(p, 1);
    CountProfileFields(p, 2);
    CountProfileFields(p, 4);
    CountProfileFields(p, 5);
    CountProfileFields(p, 6);
    CountProfileFields(p, 9);
    CountProfileFields(p, 10);
    CountProfileFields(p, 11);
    CountProfileFields(p, 12);
  }

  lemma CountProfileFields(p: Profile, num: nat)
    ensures CountNum(ProfileFields(p), num)
         == (if num == 1 then |p.sampleType| else 0)
          + (if num == 2 then |p.samples| else 0)
          + (if num == 4 then |p.locations| else 0)
          + (if num == 5 then |p.functions| else 0)
          + (if num == 6 then |p.stringTable| else 0)
          + (if num == 9 then |ScalarFields(9, p.timeNanos)| else 0)
          + (if num == 10 then |ScalarFields(10, p.durationNanos)| else 0)
          + (if num == 11 then |PeriodTypeMsgs(p.periodType)| else 0)
          + (if num == 12 then |ScalarFields(12, p.period)| else 0)
  {
    var f1 := BytesFields(1, ValueTypeMsgs(p.sampleType));
    var f2 := BytesFields(2, SampleMsgs(p.samples));
    var f4 := BytesFields(4, LocationMsgs(p.locations));
    var f5 := BytesFields(5, FunctionMsgs(p.functions));
    var f6 := BytesFields(6, StringMsgs(p.stringTable));
    var f9 := ScalarFields(9, p.timeNanos);
    var f10 := ScalarFields(10, p.durationNanos);
    var f11 := BytesFields(11, PeriodTypeMsgs(p.periodType));
    var f12 := ScalarFields(12, p.period);
    BytesAllNum(1, ValueTypeMsgs(p.sampleType));
    BytesAllNum(2, SampleMsgs(p.samples));
    BytesAllNum(4, LocationMsgs(p.locations));
    BytesAllNum(5, FunctionMsgs(p.functions));
    BytesAllNum(6, StringMsgs(p.stringTable));
    BytesAllNum(11, PeriodTypeMsgs(p.periodType));
    ScalarAllNum(9, p.timeNanos);
    ScalarAllNum(10, p.durationNanos);
    ScalarAllNum(12, p.period);
    CountAllNum(f1, 1, num);
    CountAllNum(f2, 2, num);
    CountAllNum(f4, 4, num);
    CountAllNum(f5, 5, num);
    CountAllNum(f6, 6, num);
    CountAllNum(f9, 9, num);
    CountAllNum(f10, 10, num);
    CountAllNum(f11, 11, num);
    CountAllNum(f12, 12, num);
    var g2 := f1 + f2;
    CountNumAppend(f1, f2, num);
    var g4 := g2 + f4;
    CountNumAppend(g2, f4, num);
    var g5 := g4 + f5;
    CountNumAppend(g4, f5, num);
    var g6 := g5 + f6;
    CountNumAppend(g5, f6, num);
    var g9 := g6 + f9;
    CountNumAppend(g6, f9, num);
    var g10 := g9 + f10;
    CountNumAppend(g9, f10, num);
    var g11 := g10 + f11;
    CountNumAppend(g10, f11, num);
    CountNumAppend(g11, f12, num);
    assert g11 + f12 == ProfileFields(p);
  }

  // ---------------------------------------------------------------------
  // Reading the bytes back: a reader for the fields Encode writes. Each
  // message starts from its zero value and applies its fields in order, as
  // a Protocol Buffers reader does; a field number the message does not
  // have, or a payload that does not parse, makes the read fail.

  function ValueTypeFold(fs: seq<Field>, vt: ValueType): Option<ValueType>
  {
    if fs == [] then Some(vt)
    else match fs[0]
      case VarintField(num, v) =>
        if num == 1 then ValueTypeFold(fs[1..], vt.(typ := FromU64(v)))
        else if num == 2 then ValueTypeFold(fs[1..], vt.(unit := FromU64(v)))
        else None
      case BytesField(_, _) => None
  }

  function DecodeValueType(s: seq<byte>): Option<ValueType>
  {
    match DecodeFields(s)
    case None => None
    case Some(fs) => ValueTypeFold(fs, ValueType(0, 0))
  }

  function SampleFold(fs: seq<Field>, smp: Sample): Option<Sample>
  {
    if fs == [] then Some(smp)
    else match fs[0]
      case VarintField(_, _) => None
      case BytesField(num, d) =>
        match DecodePacked(d)
        case None => None
        case Some(vs) =>
          if num == 1 then SampleFold(fs[1..], smp.(locationId := smp.locationId + vs))
          else if num == 2 then SampleFold(fs[1..], smp.(value := smp.value + FromU64s(vs)))
          else None
  }

  function DecodeSample(s: seq<byte>): Option<Sample>
  {
    match DecodeFields(s)
    case None => None
    case Some(fs) => SampleFold(fs, Sample([], []))
  }

  function LineFold(fs: seq<Field>, line: Line): Option<Line>
  {
    if fs == [] then Some(line)
    else match fs[0]
      case VarintField(num, v) =>
        if num == 1 then LineFold(fs[1..], line.(functionId := v))
        else if num == 2 then LineFold(fs[1..], line.(line := FromU64(v)))
        else None
      case BytesField(_, _) => None
  }

  function DecodeLine(s: seq<byte>): Option<Line>
  {
    match DecodeFields(s)
    case None => None
    case Some(fs) => LineFold(fs, Line(0, 0))
  }

  function LocationFold(fs: seq<Field>, loc: Location): Option<Location>
  {
    if fs == [] then Some(loc)
    else match fs[0]
      case VarintField(num, v) =>
        if num == 1 then LocationFold(fs[1..], loc.(id := v)) else None
      case BytesField(num, d) =>
        if num != 4 then None
        else match DecodeLine(d)
          case None => None
          case Some(line) => LocationFold(fs[1..], loc.(line := loc.line + [line]))
  }

  function DecodeLocation(s: seq<byte>): Option<Location>
  {
    match DecodeFields(s)
    case None => None
    case Some(fs) => LocationFold(fs, Location(0, []))
  }

  function FunctionFold(fs: seq<Field>, fn: Function): Option<Function>
  {
    if fs == [] then Some(fn)
    else match fs[0]
      case VarintField(num, v) =>
        if num == 1 then FunctionFold(fs[1..], fn.(id := v))
        else if num == 2 then FunctionFold(fs[1..], fn.(name := FromU64(v)))
        else if num == 3 then FunctionFold(fs[1..], fn.(systemName := FromU64(v)))
        else if num == 4 then FunctionFold(fs[1..], fn.(filename := FromU64(v)))
        else None
      case BytesField(_, _) => None
  }

  function DecodeFunction(s: seq<byte>): Option<Function>
  {
    match DecodeFields(s)
    case None => None
    case Some(fs) => FunctionFold(fs, Function(0, 0, 0, 0))
  }

  /**
   * The top-level fields of a Profile message before their payloads are read:
   * the payload of every length-delimited field, by field number.
   */
  datatype RawProfile = RawProfile(
    sampleType: seq<seq<byte>>,
    samples: seq<seq<byte>>,
    locations: seq<seq<byte>>,
    functions: seq<seq<byte>>,
    stringTable: seq<seq<byte>>,
    timeNanos: int,
    durationNanos: int,
    periodType: Option<seq<byte>>,
    period: int)

  /** Appends payloads to the list kept for field `num` (1, 2, 4, 5 or 6). */
  function AppendRaw(r: RawProfile, num: nat, ms: seq<seq<byte>>): RawProfile
  {
    if num == 1 then r.(sampleType := r.sampleType + ms)
    else if num == 2 then r.(samples := r.samples + ms)
    else if num == 4 then r.(locations := r.locations + ms)
    else if num == 5 then r.(functions := r.functions + ms)
    else r.(stringTable := r.stringTable + ms)
  }

  /** One top-level field applied to what has been read so far. */
  function RawStep(r: RawProfile, f: Field): Option<RawProfile>
  {
    match f
    case VarintField(num, v) =>
      if num == 9 then Some(r.(timeNanos := FromU64(v)))
      else if num == 10 then Some(r.(durationNanos := FromU64(v)))
      else if num == 12 then Some(r.(period := FromU64(v)))
      else None
    case BytesField(num, d) =>
      if num in {1, 2, 4, 5, 6} then Some(AppendRaw(r, num, [d]))
      else if num == 11 then Some(r.(periodType := Some(d)))
      else None
  }

  function RawFold(fs: seq<Field>, r: RawProfile): Option<RawProfile>
  {
    if fs == [] then Some(r)
    else match RawStep(r, fs[0])
      case None => None
      case Some(next) => RawFold(fs[1..], next)
  }

  function DecodeValueTypes(ms: seq<seq<byte>>): Option<seq<ValueType>>
  {
    if ms == [] then Some([])
    else match DecodeValueType(ms[0])
      case None => None
      case Some(x) =>
        match DecodeValueTypes(ms[1..])
        case None => None
        case Some(rest) => Some([x] + rest)
  }

  function DecodeSamples(ms: seq<seq<byte>>): Option<seq<Sample>>
  {
    if ms == [] then Some([])
    else match DecodeSample(ms[0])
      case None => None
      case Some(x) =>
        match DecodeSamples(ms[1..])
        case None => None
        case Some(rest) => Some([x] + rest)
  }

  function DecodeLocations(ms: seq<seq<byte>>): Option<seq<Location>>
  {
    if ms == [] then Some([])
    else match DecodeLocation(ms[0])
      case None => None
      case Some(x) =>
        match DecodeLocations(ms[1..])
        case None => None
        case Some(rest) => Some([x] + rest)
  }

  function DecodeFunctions(ms: seq<seq<byte>>): Option<seq<Function>>
  {
    if ms == [] then Some([])
    else match DecodeFunction(ms[0])
      case None => None
      case Some(x) =>
        match DecodeFunctions(ms[1..])
        case None => None
        case Some(rest) => Some([x] + rest)
  }

  function DecodeStrings(ms: seq<seq<byte>>): Option<seq<string>>
  {
    if ms == [] then Some([])
    else match DecodeUtf8(ms[0])
      case None => None
      case Some(x) =>
        match DecodeStrings(ms[1..])
        case None => None
        case Some(rest) => Some([x] + rest)
  }

  function DecodePeriodType(m: Option<seq<byte>>): Option<Option<ValueType>>
  {
    match m
    case None => Some(None)
    case Some(d) =>
      match DecodeValueType(d)
      case None => None
      case Some(vt) => Some(Some(vt))
  }

  /** Reads every collected payload; fails if any of them does not parse. */
  function Assemble(r: RawProfile): Option<Profile>
  {
    match (DecodeValueTypes(r.sampleType), DecodeSamples(r.samples), DecodeLocations(r.locations),
           DecodeFunctions(r.functions), DecodeStrings(r.stringTable), DecodePeriodType(r.periodType))
    case (Some(st), Some(ss), Some(ls), Some(fns), Some(strs), Some(pt)) =>
      Some(Profile(st, ss, ls, fns, strs, r.timeNanos, r.durationNanos, pt, r.period))
    case _ => None
  }

  function EmptyRaw(): RawProfile
  {
    RawProfile([], [], [], [], [], 0, 0, None, 0)
  }

  function DecodeProfile(s: seq<byte>): Option<Profile>
  {
    match DecodeFields(s)
    case None => None
    case Some(fs) =>
      match RawFold(fs, EmptyRaw())
      case None => None
      case Some(r) => Assemble(r)
  }

  // ---------------------------------------------------------------------
  // The round trip. Signed fields are int64 in the source; uint64(x) is
  // inverted by FromU64 exactly on that range.

  predicate Int64ValueType(vt: ValueType)
  {
    IsInt64(vt.typ) && IsInt64(vt.unit)
  }

  predicate Int64Sample(smp: Sample)
  {
    forall i :: 0 <= i < |smp.value| ==> IsInt64(smp.value[i])
  }

  predicate Int64Location(loc: Location)
  {
    forall i :: 0 <= i < |loc.line| ==> IsInt64(loc.line[i].line)
  }

  predicate Int64Function(fn: Function)
  {
    IsInt64(fn.name) && IsInt64(fn.systemName) && IsInt64(fn.filename)
  }

  /** Every signed field fits in the int64 the source declares for it. */
  predicate Encodable(p: Profile)
  {
    && (forall i :: 0 <= i < |p.sampleType| ==> Int64ValueType(p.sampleType[i]))
    && (forall i :: 0 <= i < |p.samples| ==> Int64Sample(p.samples[i]))
    && (forall i :: 0 <= i < |p.locations| ==> Int64Location(p.locations[i]))
    && (forall i :: 0 <= i < |p.functions| ==> Int64Function(p.functions[i]))
    && IsInt64(p.timeNanos) && IsInt64(p.durationNanos) && IsInt64(p.period)
    && (p.periodType.Some? ==> Int64ValueType(p.periodType.value))
  }

  lemma ValueTypeLayout(vt: ValueType)
    ensures DecodeFields(EncodeValueType(vt)) == Some(ValueTypeFields(vt))
  {
    ValueTypeIsFields(vt);
    FieldsRoundTrip(ValueTypeFields(vt));
  }

  lemma ValueTypeFoldFields(vt: ValueType)
    requires Int64ValueType(vt)
    ensures ValueTypeFold(ValueTypeFields(vt), ValueType(0, 0)) == Some(vt)
  {
    var fs := ValueTypeFields(vt);
    U64RoundTrip(vt.typ);
    U64RoundTrip(vt.unit);
    assert fs[1..] == [VarintField(2, U64(vt.unit))] && fs[1..][1..] == [];
    assert ValueTypeFold(fs, ValueType(0, 0)) == ValueTypeFold(fs[1..], ValueType(vt.typ, 0));
    assert ValueTypeFold(fs[1..], ValueType(vt.typ, 0)) == ValueTypeFold([], vt);
  }

  lemma ValueTypeRoundTrip(vt: ValueType)
    requires Int64ValueType(vt)
    ensures DecodeValueType(EncodeValueType(vt)) == Some(vt)
  {
    ValueTypeLayout(vt);
    ValueTypeFoldFields(vt);
  }

  lemma SampleLayout(smp: Sample)
    ensures DecodeFields(EncodeSample(smp)) == Some(SampleFields(smp))
  {
    SampleIsFields(smp);
    FieldsRoundTrip(SampleFields(smp));
  }

  lemma SampleValuesFold(smp: Sample)
    requires Int64Sample(smp)
    ensures SampleFold(if |smp.value| > 0 then [BytesField(2, PackVarints(U64s(smp.value)))] else [],
                       Sample(smp.locationId, []))
         == Some(smp)
  {
    if |smp.value| > 0 {
      PackedRoundTrip(U64s(smp.value));
      U64sRoundTrip(smp.value);
      assert [] + smp.value == smp.value;
      assert [BytesField(2, PackVarints(U64s(smp.value)))][1..] == [];
    }
  }

  lemma SampleFoldFields(smp: Sample)
    requires Int64Sample(smp)
    ensures SampleFold(SampleFields(smp), Sample([], [])) == Some(smp)
  {
    var fs := SampleFields(smp);
    var b := if |smp.value| > 0 then [BytesField(2, PackVarints(U64s(smp.value)))] else [];
    SampleValuesFold(smp);
    if |smp.locationId| > 0 {
      PackedRoundTrip(smp.locationId);
      assert [] + smp.locationId == smp.locationId;
      assert fs == [BytesField(1, PackVarints(smp.locationId))] + b;
      assert fs[1..] == b;
    } else {
      assert fs == b;
    }
  }

  /** A sample decodes back to itself; each packed field is present exactly when its list is non-empty. */
  lemma SampleRoundTrip(smp: Sample)
    requires Int64Sample(smp)
    ensures DecodeSample(EncodeSample(smp)) == Some(smp)
    ensures DecodeFields(EncodeSample(smp)).Some?
    ensures HasField(DecodeFields(EncodeSample(smp)).value, 1) <==> |smp.locationId| > 0
    ensures HasField(DecodeFields(EncodeSample(smp)).value, 2) <==> |smp.value| > 0
  {
    SampleLayout(smp);
    SampleFoldFields(smp);
    var fs := SampleFields(smp);
    if |smp.locationId| > 0 {
      assert fs[0].num == 1;
    }
    if |smp.value| > 0 {
      assert fs[|fs| - 1].num == 2;
    }
  }

  lemma LineLayout(line: Line)
    ensures DecodeFields(EncodeLine(line)) == Some(LineFields(line))
  {
    LineIsFields(line);
    FieldsRoundTrip(LineFields(line));
  }

  lemma LineFoldFields(line: Line)
    requires IsInt64(line.line)
    ensures LineFold(LineFields(line), Line(0, 0)) == Some(line)
  {
    var fs := LineFields(line);
    var mid := Line(line.functionId, 0);
    assert LineFold(fs, Line(0, 0)) == LineFold(fs[1..], mid);
    if line.line != 0 {
      U64RoundTrip(line.line);
      assert fs[1..] == [VarintField(2, U64(line.line))] && fs[1..][1..] == [];
      assert LineFold(fs[1..], mid) == LineFold([], line);
    } else {
      assert fs[1..] == [];
    }
  }

  /** A line decodes back to itself; the function id is always written, the line number only when non-zero. */
  lemma LineRoundTrip(line: Line)
    requires IsInt64(line.line)
    ensures DecodeLine(EncodeLine(line)) == Some(line)
    ensures DecodeFields(EncodeLine(line)).Some? && HasField(DecodeFields(EncodeLine(line)).value, 1)
    ensures HasField(DecodeFields(EncodeLine(line)).value, 2) <==> line.line != 0
  {
    LineLayout(line);
    LineFoldFields(line);
    var fs := LineFields(line);
    assert fs[0].num == 1;
    if line.line != 0 {
      assert fs[1].num == 2;
    }
  }

  lemma {:induction false} LinesFold(lines: seq<Line>, acc: Location)
    requires forall i :: 0 <= i < |lines| ==> IsInt64(lines[i].line)
    ensures LocationFold(BytesFields(4, LineMsgs(lines)), acc) == Some(acc.(line := acc.line + lines))
  {
    if lines == [] {
      assert acc.line + lines == acc.line;
    } else {
      var fs := BytesFields(4, LineMsgs(lines));
      var next := acc.(line := acc.line + [lines[0]]);
      assert LocationFold(fs, acc) == LocationFold(fs[1..], next) by {
        assert fs[0] == BytesField(4, EncodeLine(lines[0]));
        LineRoundTrip(lines[0]);
      }
      assert LocationFold(fs[1..], next) == Some(next.(line := next.line + lines[1..])) by {
        assert fs[1..] == BytesFields(4, LineMsgs(lines[1..]));
        LinesFold(lines[1..], next);
      }
      assert next.line + lines[1..] == acc.line + lines;
    }
  }

  lemma LocationLayout(loc: Location)
    ensures DecodeFields(EncodeLocation(loc)) == Some(LocationFields(loc))
  {
    LocationIsFields(loc);
    FieldsRoundTrip(LocationFields(loc));
  }

  lemma LocationFoldFields(loc: Location)
    requires Int64Location(loc)
    ensures LocationFold(LocationFields(loc), Location(0, [])) == Some(loc)
  {
    var fs := LocationFields(loc);
    assert fs[1..] == BytesFields(4, LineMsgs(loc.line));
    LinesFold(loc.line, Location(loc.id, []));
    assert [] + loc.line == loc.line;
  }

  lemma LocationRoundTrip(loc: Location)
    requires Int64Location(loc)
    ensures DecodeLocation(EncodeLocation(loc)) == Some(loc)
  {
    LocationLayout(loc);
    LocationFoldFields(loc);
  }

  lemma FunctionLayout(fn: Function)
    ensures DecodeFields(EncodeFunction(fn)) == Some(FunctionFields(fn))
  {
    FunctionIsFields(fn);
    FieldsRoundTrip(FunctionFields(fn));
  }

  lemma FunctionFoldFields(fn: Function)
    requires Int64Function(fn)
    ensures FunctionFold(FunctionFields(fn), Function(0, 0, 0, 0)) == Some(fn)
  {
    var fs := FunctionFields(fn);
    U64RoundTrip(fn.name);
    U64RoundTrip(fn.systemName);
    U64RoundTrip(fn.filename);
    var f1 := Function(fn.id, 0, 0, 0);
    var f2 := f1.(name := fn.name);
    var f3 := f2.(systemName := fn.systemName);
    var t1, t2, t3 := fs[1..], fs[2..], fs[3..];
    assert t1[0] == fs[1] && t1[1..] == t2;
    assert t2[0] == fs[2] && t2[1..] == t3;
    assert t3[0] == fs[3] && t3[1..] == [];
    assert FunctionFold(fs, Function(0, 0, 0, 0)) == FunctionFold(t1, f1);
    assert FunctionFold(t1, f1) == FunctionFold(t2, f2);
    assert FunctionFold(t2, f2) == FunctionFold(t3, f3);
    assert FunctionFold(t3, f3) == FunctionFold([], fn);
  }

  lemma FunctionRoundTrip(fn: Function)
    requires Int64Function(fn)
    ensures DecodeFunction(EncodeFunction(fn)) == Some(fn)
  {
    FunctionLayout(fn);
    FunctionFoldFields(fn);
  }

  lemma {:induction false} RawFoldAppend(a: seq<Field>, b: seq<Field>, acc: RawProfile)
    ensures RawFold(a + b, acc)
         == match RawFold(a, acc) case None => None case Some(x) => RawFold(b, x)
  {
    if a == [] {
      assert a + b == b;
    } else {
      assert (a + b)[1..] == a[1..] + b;
      match RawStep(acc, a[0])
      case None =>
      case Some(next) => RawFoldAppend(a[1..], b, next);
    }
  }

  /** The payloads Encode writes for p, before they are read. */
  function RawOf(p: Profile): RawProfile
  {
    RawProfile(ValueTypeMsgs(p.sampleType), SampleMsgs(p.samples), LocationMsgs(p.locations),
               FunctionMsgs(p.functions), StringMsgs(p.stringTable), p.timeNanos, p.durationNanos,
               if p.periodType.Some? then Some(EncodeValueType(p.periodType.value)) else None,
               p.period)
  }

  lemma AppendRawTwice(r: RawProfile, num: nat, a: seq<seq<byte>>, b: seq<seq<byte>>)
    ensures AppendRaw(AppendRaw(r, num, a), num, b) == AppendRaw(r, num, a + b)
  {
    if num == 1 {
      assert r.sampleType + a + b == r.sampleType + (a + b);
    } else if num == 2 {
      assert r.samples + a + b == r.samples + (a + b);
    } else if num == 4 {
      assert r.locations + a + b == r.locations + (a + b);
    } else if num == 5 {
      assert r.functions + a + b == r.functions + (a + b);
    } else {
      assert r.stringTable + a + b == r.stringTable + (a + b);
    }
  }

  lemma {:induction false} RawBytesFold(num: nat, ms: seq<seq<byte>>, acc: RawProfile)
    requires num in {1, 2, 4, 5, 6}
    ensures RawFold(BytesFields(num, ms), acc) == Some(AppendRaw(acc, num, ms))
  {
    if ms == [] {
      assert AppendRaw(acc, num, ms) == acc by {
        assert acc.sampleType + ms == acc.sampleType;
        assert acc.samples + ms == acc.samples;
        assert acc.locations + ms == acc.locations;
        assert acc.functions + ms == acc.functions;
        assert acc.stringTable + ms == acc.stringTable;
      }
    } else {
      var fs := BytesFields(num, ms);
      var next := AppendRaw(acc, num, [ms[0]]);
      assert RawFold(fs, acc) == RawFold(fs[1..], next) by {
        assert fs[0] == BytesField(num, ms[0]);
        assert RawStep(acc, fs[0]) == Some(next);
      }
      assert RawFold(fs[1..], next) == Some(AppendRaw(next, num, ms[1..])) by {
        assert fs[1..] == BytesFields(num, ms[1..]);
        RawBytesFold(num, ms[1..], next);
      }
      AppendRawTwice(acc, num, [ms[0]], ms[1..]);
      assert [ms[0]] + ms[1..] == ms;
    }
  }

  lemma ScalarFold(num: nat, v: int, acc: RawProfile, next: RawProfile)
    requires IsInt64(v) && num in {9, 10, 12}
    requires v == 0 ==> next == acc
    requires v != 0 ==> RawStep(acc, VarintField(num, U64(v))) == Some(next)
    ensures RawFold(ScalarFields(num, v), acc) == Some(next)
  {
  }

  lemma RawFoldRepeated(p: Profile)
    ensures RawFold(RepeatedFields(p), EmptyRaw())
         == Some(EmptyRaw().(sampleType := RawOf(p).sampleType, samples := RawOf(p).samples,
                             locations := RawOf(p).locations, functions := RawOf(p).functions,
                             stringTable := RawOf(p).stringTable))
  {
    var f1 := BytesFields(1, ValueTypeMsgs(p.sampleType));
    var f2 := BytesFields(2, SampleMsgs(p.samples));
    var f4 := BytesFields(4, LocationMsgs(p.locations));
    var f5 := BytesFields(5, FunctionMsgs(p.functions));
    var f6 := BytesFields(6, StringMsgs(p.stringTable));
    var r := RawOf(p);
    var a0 := EmptyRaw();
    var a1 := a0.(sampleType := r.sampleType);
    var a2 := a1.(samples := r.samples);
    var a4 := a2.(locations := r.locations);
    var a5 := a4.(functions := r.functions);
    var a6 := a5.(stringTable := r.stringTable);
    assert RawFold(f1, a0) == Some(a1) by {
      RawBytesFold(1, r.sampleType, a0);
      assert [] + r.sampleType == r.sampleType;
    }
    assert RawFold(f2, a1) == Some(a2) by {
      RawBytesFold(2, r.samples, a1);
      assert [] + r.samples == r.samples;
    }
    assert RawFold(f4, a2) == Some(a4) by {
      RawBytesFold(4, r.locations, a2);
      assert [] + r.locations == r.locations;
    }
    assert RawFold(f5, a4) == Some(a5) by {
      RawBytesFold(5, r.functions, a4);
      assert [] + r.functions == r.functions;
    }
    assert RawFold(f6, a5) == Some(a6) by {
      RawBytesFold(6, r.stringTable, a5);
      assert [] + r.stringTable == r.stringTable;
    }
    var g2 := f1 + f2;
    assert RawFold(g2, a0) == Some(a2) by { RawFoldAppend(f1, f2, a0); }
    var g4 := g2 + f4;
    assert RawFold(g4, a0) == Some(a4) by { RawFoldAppend(g2, f4, a0); }
    var g5 := g4 + f5;
    assert RawFold(g5, a0) == Some(a5) by { RawFoldAppend(g4, f5, a0); }
    assert RawFold(g5 + f6, a0) == Some(a6) by { RawFoldAppend(g5, f6, a0); }
    assert g5 + f6 == RepeatedFields(p);
  }

  /** The fields Encode writes collect into exactly RawOf(p). */
  lemma RawFoldFields(p: Profile)
    requires Encodable(p)
    ensures RawFold(ProfileFields(p), EmptyRaw()) == Some(RawOf(p))
  {
    var f9 := ScalarFields(9, p.timeNanos);
    var f10 := ScalarFields(10, p.durationNanos);
    var f11 := BytesFields(11, PeriodTypeMsgs(p.periodType));
    var f12 := ScalarFields(12, p.period);
    var r := RawOf(p);
    var a0 := EmptyRaw();
    var a6 := a0.(sampleType := r.sampleType, samples := r.samples, locations := r.locations,
                  functions := r.functions, stringTable := r.stringTable);
    var a9 := a6.(timeNanos := p.timeNanos);
    var a10 := a9.(durationNanos := p.durationNanos);
    var a11 := a10.(periodType := r.periodType);
    assert a11.(period := p.period) == r;
    var g6 := RepeatedFields(p);
    RawFoldRepeated(p);
    assert RawFold(f9, a6) == Some(a9) by {
      U64RoundTrip(p.timeNanos);
      ScalarFold(9, p.timeNanos, a6, a9);
    }
    assert RawFold(f10, a9) == Some(a10) by {
      U64RoundTrip(p.durationNanos);
      ScalarFold(10, p.durationNanos, a9, a10);
    }
    assert RawFold(f11, a10) == Some(a11);
    assert RawFold(f12, a11) == Some(r) by {
      U64RoundTrip(p.period);
      ScalarFold(12, p.period, a11, r);
    }
    var g9 := g6 + f9;
    assert RawFold(g9, a0) == Some(a9) by { RawFoldAppend(g6, f9, a0); }
    var g10 := g9 + f10;
    assert RawFold(g10, a0) == Some(a10) by { RawFoldAppend(g9, f10, a0); }
    var g11 := g10 + f11;
    assert RawFold(g11, a0) == Some(a11) by { RawFoldAppend(g10, f11, a0); }
    assert RawFold(g11 + f12, a0) == Some(r) by { RawFoldAppend(g11, f12, a0); }
    assert g11 + f12 == ProfileFields(p);
  }

  lemma {:induction false} ValueTypesRoundTrip(xs: seq<ValueType>)
    requires forall i :: 0 <= i < |xs| ==> Int64ValueType(xs[i])
    ensures DecodeValueTypes(ValueTypeMsgs(xs)) == Some(xs)
  {
    if xs != [] {
      ValueTypeRoundTrip(xs[0]);
      ValueTypesRoundTrip(xs[1..]);
      assert [xs[0]] + xs[1..] == xs;
    }
  }

  lemma {:induction false} SamplesRoundTrip(xs: seq<Sample>)
    requires forall i :: 0 <= i < |xs| ==> Int64Sample(xs[i])
    ensures DecodeSamples(SampleMsgs(xs)) == Some(xs)
  {
    if xs != [] {
      SampleRoundTrip(xs[0]);
      SamplesRoundTrip(xs[1..]);
      assert [xs[0]] + xs[1..] == xs;
    }
  }

  lemma {:induction false} LocationsRoundTrip(xs: seq<Location>)
    requires forall i :: 0 <= i < |xs| ==> Int64Location(xs[i])
    ensures DecodeLocations(LocationMsgs(xs)) == Some(xs)
  {
    if xs != [] {
      LocationRoundTrip(xs[0]);
      LocationsRoundTrip(xs[1..]);
      assert [xs[0]] + xs[1..] == xs;
    }
  }

  lemma {:induction false} FunctionsRoundTrip(xs: seq<Function>)
    requires forall i :: 0 <= i < |xs| ==> Int64Function(xs[i])
    ensures DecodeFunctions(FunctionMsgs(xs)) == Some(xs)
  {
    if xs != [] {
      FunctionRoundTrip(xs[0]);
      FunctionsRoundTrip(xs[1..]);
      assert [xs[0]] + xs[1..] == xs;
    }
  }

  lemma {:induction false} StringsRoundTrip(xs: seq<string>)
    ensures DecodeStrings(StringMsgs(xs)) == Some(xs)
  {
    if xs != [] {
      Utf8RoundTrip(xs[0]);
      StringsRoundTrip(xs[1..]);
      assert [xs[0]] + xs[1..] == xs;
    }
  }

  lemma AssembleRaw(p: Profile)
    requires Encodable(p)
    ensures Assemble(RawOf(p)) == Some(p)
  {
    ValueTypesRoundTrip(p.sampleType);
    SamplesRoundTrip(p.samples);
    LocationsRoundTrip(p.locations);
    FunctionsRoundTrip(p.functions);
    StringsRoundTrip(p.stringTable);
    if p.periodType.Some? {
      ValueTypeRoundTrip(p.periodType.value);
    }
  }

  /**
   * Every profile whose signed fields fit in int64 is read back exactly from
   * the bytes Encode writes: nothing is lost, including the omitted zeros.
   */
  lemma DecodeEncode(p: Profile)
    requires Encodable(p)
    ensures DecodeProfile(Encode(p)) == Some(p)
  {
    EncodeLayout(p);
    RawFoldFields(p);
    AssembleRaw(p);
  }
}
