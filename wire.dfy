// Protocol Buffers wire primitives used by the pprof encoder in
// internal/profile/profile.go: base-128 varints, field tags, length-delimited
// framing and packed repeated integers, each with a reader that undoes it.

module Options {
  datatype Option<+T> = None | Some(value: T)
}

module Wire {
  import opened Options

  /** One byte of the encoded output. */
  type byte = b: int | 0 <= b < 0x100

  function Pow2(k: nat): (r: nat)
    ensures r >= 1
  {
    if k == 0 then 1 else 2 * Pow2(k - 1)
  }

  /** Bitwise OR of two non-negative integers (Go's `|` on unsigned values). */
  function Or(a: nat, b: nat): nat
    decreases a + b
  {
    if a == 0 then b
    else if b == 0 then a
    else 2 * Or(a / 2, b / 2) + (if a % 2 == 1 || b % 2 == 1 then 1 else 0)
  }

  /** OR-ing a value below 2^k into a multiple of 2^k is addition: `(f << k) | w`. */
  lemma {:induction false} OrShifted(f: nat, w: nat, k: nat)
    requires w < Pow2(k)
    ensures Or(f * Pow2(k), w) == f * Pow2(k) + w
  {
    if k == 0 {
      assert w == 0;
    } else if f == 0 || w == 0 {
    } else {
      var h := Pow2(k - 1);
      assert f * Pow2(k) == 2 * (f * h);
      assert (f * Pow2(k)) / 2 == f * h;
      assert (f * Pow2(k)) % 2 == 0;
      OrShifted(f, w / 2, k - 1);
      assert Or(f * h, w / 2) == f * h + w / 2;
    }
  }

  /**
   * The byte written for v when more groups follow, `byte(v) | 0x80`: the
   * low seven bits of v with bit 7 set.
   */
  function ContinuationByte(v: nat): (b: byte)
    ensures 0x80 <= b
  {
    v % 0x80 + 0x80
  }

  /** The base-128 varint of v, least significant group first (encodeVarint). */
  function Varint(v: nat): (r: seq<byte>)
    decreases v
  {
    if v < 0x80 then [v]
    else [ContinuationByte(v)] + Varint(v / 0x80)
  }

  /** A varint is at least one byte; bit 7 is set on every byte but the last. */
  lemma {:induction false} VarintShape(v: nat)
    ensures |Varint(v)| >= 1
    ensures Varint(v)[|Varint(v)| - 1] < 0x80
    ensures forall i :: 0 <= i < |Varint(v)| - 1 ==> Varint(v)[i] >= 0x80
    decreases v
  {
    if v >= 0x80 {
      VarintShape(v / 0x80);
      var r, t := Varint(v), Varint(v / 0x80);
      assert r == [ContinuationByte(v)] + t;
      forall i | 0 <= i < |r| - 1
        ensures r[i] >= 0x80
      {
        if i > 0 { assert r[i] == t[i - 1]; }
      }
    }
  }

  /** encodeVarint as the source writes it: a loop that emits and shifts. */
  method EncodeVarint(v0: nat) returns (buf: seq<byte>)
    ensures buf == Varint(v0)
  {
    var v := v0;
    buf := [];
    while v >= 0x80
      invariant buf + Varint(v) == Varint(v0)
      decreases v
    {
      assert Varint(v) == [ContinuationByte(v)] + Varint(v / 0x80);
      assert buf + Varint(v) == (buf + [ContinuationByte(v)]) + Varint(v / 0x80);
      buf := buf + [ContinuationByte(v)];
      v := v / 0x80;
    }
    buf := buf + [v];
  }

  /** The encodings fixed by the source's tests. */
  lemma VarintExamples()
    ensures Varint(0) == [0] && Varint(1) == [1] && Varint(127) == [127]
    ensures Varint(128) == [0x80, 0x01]
    ensures Varint(300) == [0xac, 0x02]
  {
    assert Varint(1) == [1];
    assert Varint(2) == [2];
  }

  /**
   * Reads one varint from the front of s: its value and the number of bytes
   * it occupies, or None when s ends before a byte without bit 7.
   */
  function DecodeVarint(s: seq<byte>): (r: Option<(nat, nat)>)
    ensures r.Some? ==> 1 <= r.value.1 <= |s|
    decreases |s|
  {
    if |s| == 0 then None
    else if s[0] < 0x80 then Some((s[0], 1))
    else match DecodeVarint(s[1..])
      case None => None
      case Some((v, n)) => Some((s[0] - 0x80 + 0x80 * v, n + 1))
  }

  /** Decoding the varint of v, whatever follows it, gives back v and its length. */
  lemma {:induction false} VarintRoundTrip(v: nat, rest: seq<byte>)
    ensures DecodeVarint(Varint(v) + rest) == Some((v, |Varint(v)|))
    decreases v
  {
    if v >= 0x80 {
      var s := Varint(v) + rest;
      assert s[1..] == Varint(v / 0x80) + rest;
      VarintRoundTrip(v / 0x80, rest);
    }
  }

  /** Distinct values never share a varint. */
  lemma VarintInjective(a: nat, b: nat)
    requires Varint(a) == Varint(b)
    ensures a == b
  {
    VarintRoundTrip(a, []);
    VarintRoundTrip(b, []);
    assert Varint(a) + [] == Varint(a);
    assert Varint(b) + [] == Varint(b);
  }

  /** A value below 2^(7k) takes at most k bytes; a uint64 at most ten. */
  lemma {:induction false} VarintLength(v: nat, k: nat)
    requires k >= 1 && v < Pow2(7 * k)
    ensures |Varint(v)| <= k
    decreases k
  {
    if v >= 0x80 {
      assert Pow2(7) == 0x80 by { Pow2Seven(); }
      assert k >= 2;
      var p := Pow2(7 * (k - 1));
      Pow2Add(7, 7 * (k - 1));
      assert Pow2(7) == 0x80;
      assert 7 * k == 7 + 7 * (k - 1);
      assert v < 0x80 * p;
      assert v / 0x80 < p;
      VarintLength(v / 0x80, k - 1);
      assert |Varint(v)| == 1 + |Varint(v / 0x80)|;
    }
  }

  lemma Pow2Seven()
    ensures Pow2(7) == 0x80
  {
  }

  lemma {:induction false} Pow2Add(a: nat, b: nat)
    ensures Pow2(a + b) == Pow2(a) * Pow2(b)
    decreases a
  {
    if a > 0 {
      Pow2Add(a - 1, b);
    }
  }

  /** The key byte(s) of a field: encodeVarint((fieldNum << 3) | wireType). */
  function EncodeTag(fieldNum: nat, wireType: nat): (r: seq<byte>)
    ensures wireType < 8 ==> r == Varint(fieldNum * 8 + wireType)
  {
    if wireType < 8 then
      OrShifted(fieldNum, wireType, 3);
      Varint(Or(fieldNum * 8, wireType))
    else
      Varint(Or(fieldNum * 8, wireType))
  }

  const WireVarint: nat := 0
  const WireBytes: nat := 2

  /** One decoded field of a message: a varint scalar or a length-delimited payload. */
  datatype Field =
    | VarintField(num: nat, value: nat)
    | BytesField(num: nat, data: seq<byte>)

  function EncodeField(f: Field): seq<byte>
  {
    match f
    case VarintField(n, v) => EncodeTag(n, WireVarint) + Varint(v)
    case BytesField(n, d) => EncodeTag(n, WireBytes) + Varint(|d|) + d
  }

  function EncodeFields(fs: seq<Field>): seq<byte>
  {
    if fs == [] then [] else EncodeField(fs[0]) + EncodeFields(fs[1..])
  }

  lemma {:induction false} EncodeFieldsAppend(a: seq<Field>, b: seq<Field>)
    ensures EncodeFields(a + b) == EncodeFields(a) + EncodeFields(b)
  {
    if a == [] {
      assert a + b == b;
    } else {
      var h := EncodeField(a[0]);
      assert (a + b)[0] == a[0] && (a + b)[1..] == a[1..] + b;
      calc {
        EncodeFields(a + b);
        h + EncodeFields(a[1..] + b);
        { EncodeFieldsAppend(a[1..], b); }
        h + (EncodeFields(a[1..]) + EncodeFields(b));
        (h + EncodeFields(a[1..])) + EncodeFields(b);
      }
    }
  }

  /**
   * Reads one field from the front of s: the field and the number of bytes it
   * occupies. Only wire types 0 (varint) and 2 (length-delimited) occur in
   * this encoder; any other wire type, or a truncated field, is None.
   */
  function DecodeField(s: seq<byte>): (r: Option<(Field, nat)>)
    ensures r.Some? ==> 1 <= r.value.1 <= |s|
  {
    match DecodeVarint(s)
    case None => None
    case Some((key, n)) =>
      match DecodePayload(key / 8, key % 8, s[n..])
      case None => None
      case Some((f, m)) => Some((f, n + m))
  }

  /** What follows a field's key: a varint, or a length and that many bytes. */
  function DecodePayload(num: nat, wireType: nat, rest: seq<byte>): (r: Option<(Field, nat)>)
    ensures r.Some? ==> 1 <= r.value.1 <= |rest|
  {
    if wireType == WireVarint then
      match DecodeVarint(rest)
      case None => None
      case Some((v, m)) => Some((VarintField(num, v), m))
    else if wireType == WireBytes then
      match DecodeVarint(rest)
      case None => None
      case Some((len, m)) =>
        if m + len > |rest| then None
        else Some((BytesField(num, rest[m..m + len]), m + len))
    else None
  }

  /** Splits a whole message into its fields, in order. */
  function DecodeFields(s: seq<byte>): Option<seq<Field>>
    decreases |s|
  {
    if |s| == 0 then Some([])
    else match DecodeField(s)
      case None => None
      case Some((f, n)) =>
        match DecodeFields(s[n..])
        case None => None
        case Some(fs) => Some([f] + fs)
  }

  function WireTypeOf(f: Field): nat
  {
    if f.VarintField? then WireVarint else WireBytes
  }

  /** The bytes of a field after its key. */
  function Payload(f: Field): seq<byte>
  {
    match f
    case VarintField(_, v) => Varint(v)
    case BytesField(_, d) => Varint(|d|) + d
  }

  lemma PayloadRoundTrip(f: Field, tail: seq<byte>)
    ensures DecodePayload(f.num, WireTypeOf(f), Payload(f) + tail) == Some((f, |Payload(f)|))
  {
    match f
    case VarintField(n, v) =>
      VarintRoundTrip(v, tail);
    case BytesField(n, d) =>
      var len := Varint(|d|);
      assert Payload(f) + tail == len + (d + tail);
      VarintRoundTrip(|d|, d + tail);
      assert (len + (d + tail))[|len|..|len| + |d|] == d;
  }

  lemma DecodeFieldOf(s: seq<byte>, key: nat, n: nat, f: Field, m: nat)
    requires DecodeVarint(s) == Some((key, n))
    requires DecodePayload(key / 8, key % 8, s[n..]) == Some((f, m))
    ensures DecodeField(s) == Some((f, n + m))
  {
  }

  function FieldKey(f: Field): nat
  {
    f.num * 8 + WireTypeOf(f)
  }

  lemma FieldSplit(f: Field, tail: seq<byte>)
    ensures EncodeField(f) + tail == Varint(FieldKey(f)) + (Payload(f) + tail)
    ensures |EncodeField(f)| == |Varint(FieldKey(f))| + |Payload(f)|
  {
    var tag := Varint(FieldKey(f));
    match f
    case VarintField(n, v) =>
      assert EncodeField(f) == tag + Payload(f);
    case BytesField(n, d) =>
      var len := Varint(|d|);
      assert EncodeField(f) == (tag + len) + d;
      assert (tag + len) + d == tag + (len + d);
  }

  lemma KeyRead(f: Field, s: seq<byte>, rest: seq<byte>)
    requires s == Varint(FieldKey(f)) + rest
    ensures DecodeVarint(s) == Some((FieldKey(f), |Varint(FieldKey(f))|))
    ensures s[|Varint(FieldKey(f))|..] == rest
  {
    VarintRoundTrip(FieldKey(f), rest);
  }

  lemma PayloadRead(f: Field, tail: seq<byte>)
    ensures DecodePayload(FieldKey(f) / 8, FieldKey(f) % 8, Payload(f) + tail)
         == Some((f, |Payload(f)|))
  {
    assert FieldKey(f) / 8 == f.num && FieldKey(f) % 8 == WireTypeOf(f);
    PayloadRoundTrip(f, tail);
  }

  /** One encoded field reads back as itself, whatever follows it. */
  lemma FieldRoundTrip(f: Field, tail: seq<byte>)
    ensures DecodeField(EncodeField(f) + tail) == Some((f, |EncodeField(f)|))
  {
    var s := EncodeField(f) + tail;
    FieldSplit(f, tail);
    KeyRead(f, s, Payload(f) + tail);
    PayloadRead(f, tail);
    DecodeFieldOf(s, FieldKey(f), |Varint(FieldKey(f))|, f, |Payload(f)|);
  }

  /** Reading back an encoded field list gives the same fields, in the same order. */
  lemma {:induction false} FieldsRoundTrip(fs: seq<Field>)
    ensures DecodeFields(EncodeFields(fs)) == Some(fs)
  {
    if fs != [] {
      var head, tail := EncodeField(fs[0]), EncodeFields(fs[1..]);
      FieldsRoundTrip(fs[1..]);
      FieldRoundTrip(fs[0], tail);
      assert (head + tail)[|head|..] == tail;
      assert [fs[0]] + fs[1..] == fs;
    }
  }

  /** The payload of a packed repeated integer field: the varints back to back. */
  function PackVarints(vs: seq<nat>): seq<byte>
  {
    if vs == [] then [] else Varint(vs[0]) + PackVarints(vs[1..])
  }

  function DecodePacked(s: seq<byte>): Option<seq<nat>>
    decreases |s|
  {
    if |s| == 0 then Some([])
    else match DecodeVarint(s)
      case None => None
      case Some((v, n)) =>
        match DecodePacked(s[n..])
        case None => None
        case Some(vs) => Some([v] + vs)
  }

  lemma {:induction false} PackedRoundTrip(vs: seq<nat>)
    ensures DecodePacked(PackVarints(vs)) == Some(vs)
  {
    if vs != [] {
      var s, tail := PackVarints(vs), PackVarints(vs[1..]);
      PackedRoundTrip(vs[1..]);
      assert s == Varint(vs[0]) + tail;
      VarintRoundTrip(vs[0], tail);
      assert s[|Varint(vs[0])|..] == tail;
      assert [vs[0]] + vs[1..] == vs;
    }
  }

  /** The UTF-8 bytes of one Unicode scalar value (Go's []byte(s), per rune). */
  function Utf8Char(c: char): (r: seq<byte>)
    ensures 1 <= |r| <= 4
  {
    var n := c as int;
    if n < 0x80 then [n]
    else if n < 0x800 then [0xC0 + n / 0x40, 0x80 + n % 0x40]
    else if n < 0x10000 then [0xE0 + n / 0x1000, 0x80 + (n / 0x40) % 0x40, 0x80 + n % 0x40]
    else [0xF0 + n / 0x40000, 0x80 + (n / 0x1000) % 0x40, 0x80 + (n / 0x40) % 0x40, 0x80 + n % 0x40]
  }

  function Utf8(s: string): seq<byte>
  {
    if s == [] then [] else Utf8Char(s[0]) + Utf8(s[1..])
  }

  /** A code point read back as a char, when it is one. */
  function AsChar(v: int, n: nat): (r: Option<(char, nat)>)
    ensures r.Some? ==> r.value.0 as int == v && r.value.1 == n
  {
    if 0 <= v < 0xD800 || 0xE000 <= v < 0x11_0000 then Some((v as char, n)) else None
  }

  /** Reads one UTF-8 sequence; the first byte tells how many follow. */
  function DecodeUtf8Char(s: seq<byte>): (r: Option<(char, nat)>)
    ensures r.Some? ==> 1 <= r.value.1 <= |s|
  {
    if |s| == 0 then None
    else if s[0] < 0x80 then Some((s[0] as char, 1))
    else if s[0] < 0xE0 then
      if |s| < 2 then None
      else AsChar((s[0] as int - 0xC0) * 0x40 + (s[1] as int - 0x80), 2)
    else if s[0] < 0xF0 then
      if |s| < 3 then None
      else AsChar((s[0] as int - 0xE0) * 0x1000 + (s[1] as int - 0x80) * 0x40 + (s[2] as int - 0x80), 3)
    else if |s| < 4 then None
    else AsChar((s[0] as int - 0xF0) * 0x40000 + (s[1] as int - 0x80) * 0x1000
                + (s[2] as int - 0x80) * 0x40 + (s[3] as int - 0x80), 4)
  }

  function DecodeUtf8(s: seq<byte>): Option<string>
    decreases |s|
  {
    if |s| == 0 then Some([])
    else match DecodeUtf8Char(s)
      case None => None
      case Some((c, n)) =>
        match DecodeUtf8(s[n..])
        case None => None
        case Some(rest) => Some([c] + rest)
  }

  lemma DivSplit(n: nat, d: nat)
    requires d > 0
    ensures n == (n / d) * d + n % d && 0 <= n % d < d
  {
  }

  lemma DivDiv64(n: nat)
    ensures n / 0x1000 == (n / 0x40) / 0x40
    ensures n / 0x40000 == (n / 0x1000) / 0x40
  {
  }

  lemma Utf8TwoBytes(c: char, tail: seq<byte>)
    requires 0x80 <= c as int < 0x800
    ensures DecodeUtf8Char(Utf8Char(c) + tail) == Some((c, 2))
  {
    var n := c as int;
    var s := Utf8Char(c) + tail;
    DivSplit(n, 0x40);
    assert s[0] == 0xC0 + n / 0x40 && s[1] == 0x80 + n % 0x40;
    assert (s[0] as int - 0xC0) * 0x40 + (s[1] as int - 0x80) == n;
  }

  lemma Utf8ThreeBytes(c: char, tail: seq<byte>)
    requires 0x800 <= c as int < 0x10000
    ensures DecodeUtf8Char(Utf8Char(c) + tail) == Some((c, 3))
  {
    var n := c as int;
    var s := Utf8Char(c) + tail;
    DivDiv64(n);
    DivSplit(n, 0x40);
    DivSplit(n / 0x40, 0x40);
    assert s[0] == 0xE0 + n / 0x1000;
    assert s[1] == 0x80 + (n / 0x40) % 0x40 && s[2] == 0x80 + n % 0x40;
    assert (s[0] as int - 0xE0) * 0x1000 + (s[1] as int - 0x80) * 0x40 + (s[2] as int - 0x80) == n;
  }

  lemma Utf8FourBytes(c: char, tail: seq<byte>)
    requires 0x10000 <= c as int
    ensures DecodeUtf8Char(Utf8Char(c) + tail) == Some((c, 4))
  {
    var n := c as int;
    var s := Utf8Char(c) + tail;
    DivDiv64(n);
    DivSplit(n, 0x40);
    DivSplit(n / 0x40, 0x40);
    DivSplit(n / 0x1000, 0x40);
    assert s[0] == 0xF0 + n / 0x40000;
    assert s[1] == 0x80 + (n / 0x1000) % 0x40;
    assert s[2] == 0x80 + (n / 0x40) % 0x40 && s[3] == 0x80 + n % 0x40;
    assert (s[0] as int - 0xF0) * 0x40000 + (s[1] as int - 0x80) * 0x1000
           + (s[2] as int - 0x80) * 0x40 + (s[3] as int - 0x80) == n;
  }

  lemma Utf8CharRoundTrip(c: char, tail: seq<byte>)
    ensures DecodeUtf8Char(Utf8Char(c) + tail) == Some((c, |Utf8Char(c)|))
  {
    var n := c as int;
    if n < 0x80 {
    } else if n < 0x800 {
      Utf8TwoBytes(c, tail);
    } else if n < 0x10000 {
      Utf8ThreeBytes(c, tail);
    } else {
      Utf8FourBytes(c, tail);
    }
  }

  /** Utf8 is read back exactly by DecodeUtf8. */
  lemma {:induction false} Utf8RoundTrip(str: string)
    ensures DecodeUtf8(Utf8(str)) == Some(str)
  {
    if str != [] {
      var b, rest := Utf8Char(str[0]), Utf8(str[1..]);
      assert Utf8(str) == b + rest;
      Utf8CharRoundTrip(str[0], rest);
      assert Utf8(str)[|b|..] == rest;
      Utf8RoundTrip(str[1..]);
      assert [str[0]] + str[1..] == str;
    }
  }
}
