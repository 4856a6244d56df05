/** Byte-level reading and writing: big-endian integers, length-prefixed strings, and the two
    reader dialects. Go's `bytes.Reader.Read` reports end of input whenever nothing is left, even
    for an empty destination, and otherwise fills what it can and leaves zeros behind; the Rust
    reader takes exactly what was asked or fails. */
module Bytes {
  import opened Bits
  import opened Wire
  import opened Sorting

  const MAX_STRING: nat := 2048

  datatype Dialect = Go | Rust

  datatype Parse<+T> = Parsed(value: T, rest: seq<byte>) | Failed {
    predicate IsFailure() {
      Failed?
    }
    function PropagateFailure<U>(): Parse<U>
      requires Failed?
    {
      Failed
    }
    function Extract(): (T, seq<byte>)
      requires Parsed?
    {
      (value, rest)
    }
  }

  datatype Encoding = Encoded(bytes: seq<byte>) | Refused {
    predicate IsFailure() {
      Refused?
    }
    function PropagateFailure(): Encoding
      requires Refused?
    {
      Refused
    }
    function Extract(): seq<byte>
      requires Encoded?
    {
      bytes
    }
  }

  // ----- integers -----

  function Pow256(n: nat): (p: nat)
    ensures p > 0
  {
    if n == 0 then 1 else 256 * Pow256(n - 1)
  }

  function BigEndian(value: nat, n: nat): (r: seq<byte>)
    ensures |r| == n
  {
    if n == 0 then [] else BigEndian(value / 256, n - 1) + [value % 256]
  }

  function FromBigEndian(bytes: seq<byte>): (r: nat)
    ensures r < Pow256(|bytes|)
  {
    if bytes == [] then 0
    else FromBigEndian(bytes[..|bytes| - 1]) * 256 + bytes[|bytes| - 1]
  }

  lemma {:induction false} BigEndianRoundTrip(value: nat, n: nat)
    requires value < Pow256(n)
    ensures FromBigEndian(BigEndian(value, n)) == value
  {
    if n > 0 {
      BigEndianRoundTrip(value / 256, n - 1);
      assert BigEndian(value, n)[..n - 1] == BigEndian(value / 256, n - 1);
    }
  }

  lemma Widths()
    ensures Pow256(1) == 0x100 && Pow256(2) == 0x1_0000 && Pow256(4) == 0x1_0000_0000 && Pow256(8) == TWO_64
  {
    assert Pow256(3) == 256 * Pow256(2);
    assert Pow256(5) == 256 * Pow256(4);
    assert Pow256(7) == 256 * Pow256(6);
  }

  // ----- readers -----

  function Zeros(n: nat): (r: seq<byte>)
    ensures |r| == n
  {
    seq(n, _ => 0)
  }

  /** Reads `n` bytes into a fresh buffer. */
  function Read(dialect: Dialect, input: seq<byte>, n: nat): (r: Parse<seq<byte>>)
    ensures r.Parsed? ==> |r.value| == n && |r.rest| <= |input|
  {
    match dialect
    case Rust =>
      if |input| < n then Failed else Parsed(input[..n], input[n..])
    case Go =>
      if input == [] then Failed
      else if |input| < n then Parsed(input + Zeros(n - |input|), [])
      else Parsed(input[..n], input[n..])
  }

  /** Both dialects read one byte or fail. */
  function ReadByte(input: seq<byte>): (r: Parse<byte>)
    ensures r.Parsed? ==> |r.rest| < |input|
  {
    if input == [] then Failed else Parsed(input[0], input[1..])
  }

  function ReadUint(dialect: Dialect, input: seq<byte>, n: nat): (r: Parse<nat>)
    ensures r.Parsed? ==> |r.rest| <= |input| && r.value < Pow256(n)
  {
    var (bytes, rest) :- Read(dialect, input, n);
    Parsed(FromBigEndian(bytes), rest)
  }

  function ReadU16(dialect: Dialect, input: seq<byte>): (r: Parse<u16>)
    ensures r.Parsed? ==> |r.rest| <= |input|
  {
    Widths();
    var (value, rest) :- ReadUint(dialect, input, 2);
    Parsed(value, rest)
  }

  function ReadU32(dialect: Dialect, input: seq<byte>): (r: Parse<u32>)
    ensures r.Parsed? ==> |r.rest| <= |input|
  {
    Widths();
    var (value, rest) :- ReadUint(dialect, input, 4);
    Parsed(value, rest)
  }

  function ReadU64(dialect: Dialect, input: seq<byte>): (r: Parse<u64>)
    ensures r.Parsed? ==> |r.rest| <= |input|
  {
    Widths();
    var (value, rest) :- ReadUint(dialect, input, 8);
    Parsed(value, rest)
  }

  /** Reads a field whose length is already known, failing when it is longer than what is left. */
  function ReadField(dialect: Dialect, input: seq<byte>, length: nat): (r: Parse<seq<byte>>)
    ensures r.Parsed? ==> |r.rest| <= |input|
  {
    if length > |input| then Failed else Read(dialect, input, length)
  }

  function ReadString(dialect: Dialect, input: seq<byte>): (r: Parse<Str>)
    ensures r.Parsed? ==> |r.rest| <= |input|
  {
    var (length, rest) :- ReadU16(dialect, input);
    if length > MAX_STRING then Failed
    else
      var (bytes, tail) :- ReadField(dialect, rest, length);
      if dialect.Rust? && !Utf8(bytes) then Failed else Parsed(bytes, tail)
  }

  // ----- writers -----

  function WriteU16(value: u16): (r: seq<byte>)
    ensures |r| == 2
  {
    BigEndian(value, 2)
  }

  function WriteU32(value: u32): (r: seq<byte>)
    ensures |r| == 4
  {
    BigEndian(value, 4)
  }

  function WriteU64(value: u64): (r: seq<byte>)
    ensures |r| == 8
  {
    BigEndian(value, 8)
  }

  function WriteString(text: Str): (r: Encoding)
    ensures r.Encoded? ==> |r.bytes| == 2 + |text|
  {
    if |text| > MAX_STRING then Refused else Encoded(WriteU16(|text|) + text)
  }

  // ----- UTF-8 (section 4 of RFC 3629) -----

  predicate Tail(b: byte) {
    0x80 <= b <= 0xBF
  }

  predicate Utf8(text: Str) {
    if text == [] then true
    else
      var b := text[0];
      if b <= 0x7F then Utf8(text[1..])
      else if 0xC2 <= b <= 0xDF then |text| >= 2 && Tail(text[1]) && Utf8(text[2..])
      else if 0xE0 <= b <= 0xEF then
        && |text| >= 3 && Tail(text[1]) && Tail(text[2])
        && (b == 0xE0 ==> text[1] >= 0xA0)
        && (b == 0xED ==> text[1] <= 0x9F)
        && Utf8(text[3..])
      else if 0xF0 <= b <= 0xF4 then
        && |text| >= 4 && Tail(text[1]) && Tail(text[2]) && Tail(text[3])
        && (b == 0xF0 ==> text[1] >= 0x90)
        && (b == 0xF4 ==> text[1] <= 0x8F)
        && Utf8(text[4..])
      else false
  }

  lemma Assoc(a: seq<byte>, b: seq<byte>, c: seq<byte>)
    ensures a + b + c == a + (b + c)
  {
  }

  lemma Assoc4(a: seq<byte>, b: seq<byte>, c: seq<byte>, d: seq<byte>)
    ensures a + b + c + d == a + (b + (c + d))
  {
  }

  // ----- round trips of the primitives -----

  /** Where each reader gives back what was written in front of `rest`: always for Rust; for Go
      unless the field is empty and nothing follows. */
  predicate Readable(dialect: Dialect, field: seq<byte>, rest: seq<byte>) {
    dialect.Rust? || field != [] || rest != []
  }

  lemma ReadBack(dialect: Dialect, field: seq<byte>, rest: seq<byte>)
    ensures Read(dialect, field + rest, |field|)
         == if Readable(dialect, field, rest) then Parsed(field, rest) else Failed
  {
    assert (field + rest)[..|field|] == field;
    assert (field + rest)[|field|..] == rest;
  }

  lemma UintBack(dialect: Dialect, value: nat, n: nat, rest: seq<byte>)
    requires n > 0 && value < Pow256(n)
    ensures ReadUint(dialect, BigEndian(value, n) + rest, n) == Parsed(value, rest)
  {
    ReadBack(dialect, BigEndian(value, n), rest);
    BigEndianRoundTrip(value, n);
  }

  lemma U16Back(dialect: Dialect, value: u16, rest: seq<byte>)
    ensures ReadU16(dialect, WriteU16(value) + rest) == Parsed(value, rest)
  {
    Widths();
    UintBack(dialect, value, 2, rest);
  }

  lemma U32Back(dialect: Dialect, value: u32, rest: seq<byte>)
    ensures ReadU32(dialect, WriteU32(value) + rest) == Parsed(value, rest)
  {
    Widths();
    UintBack(dialect, value, 4, rest);
  }

  lemma U64Back(dialect: Dialect, value: u64, rest: seq<byte>)
    ensures ReadU64(dialect, WriteU64(value) + rest) == Parsed(value, rest)
  {
    Widths();
    UintBack(dialect, value, 8, rest);
  }

  lemma StringBack(dialect: Dialect, text: Str, rest: seq<byte>)
    requires WriteString(text).Encoded?
    requires dialect.Rust? ==> Utf8(text)
    ensures ReadString(dialect, WriteString(text).bytes + rest)
         == if Readable(dialect, text, rest) then Parsed(text, rest) else Failed
  {
    assert WriteString(text).bytes + rest == WriteU16(|text|) + (text + rest);
    U16Back(dialect, |text|, text + rest);
    ReadBack(dialect, text, rest);
  }

  // ----- the layout, in digits -----

  lemma Regroup(x: nat, p: nat)
    ensures x * (256 * p) == 256 * (x * p) == x * p * 256
  {
  }

  lemma {:induction false} Joined(high: nat, m: nat, low: nat, n: nat)
    requires low < Pow256(n)
    ensures BigEndian(high * Pow256(n) + low, m + n) == BigEndian(high, m) + BigEndian(low, n)
  {
    if n > 0 {
      var upper := high * Pow256(n - 1);
      Joined(high, m, low / 256, n - 1);
      Regroup(high, Pow256(n - 1));
      LastByte(upper, low);
    }
  }

  lemma LastByte(upper: nat, low: nat)
    ensures (256 * upper + low) / 256 == upper + low / 256
    ensures (256 * upper + low) % 256 == low % 256
  {
  }

  /** Two bytes, the high one first. */
  lemma U16Layout(value: u16)
    ensures WriteU16(value) == [value / 0x100, value % 0x100]
  {
    assert BigEndian(value, 2) == BigEndian(value / 0x100, 1) + [value % 0x100];
    assert BigEndian(value / 0x100, 1) == [] + [value / 0x100 % 0x100];
  }

  /** Four bytes: the two of the upper half, then the two of the lower half. */
  lemma U32Layout(value: u32)
    ensures WriteU32(value) == WriteU16(value / 0x1_0000) + WriteU16(value % 0x1_0000)
  {
    Widths();
    Joined(value / 0x1_0000, 2, value % 0x1_0000, 2);
  }

  /** Eight bytes: the four of the upper half, then the four of the lower half. */
  lemma U64Layout(value: u64)
    ensures WriteU64(value) == WriteU32(value / 0x1_0000_0000) + WriteU32(value % 0x1_0000_0000)
  {
    Widths();
    Joined(value / 0x1_0000_0000, 4, value % 0x1_0000_0000, 4);
  }

  /** A string is its length in two bytes and then its bytes; one of more than 2048 bytes is refused. */
  lemma StringLayout(text: Str)
    ensures WriteString(text)
         == if |text| > 2048 then Refused else Encoded([|text| / 0x100, |text| % 0x100] + text)
  {
    if |text| <= 2048 {
      U16Layout(|text|);
    }
  }

  // ----- short input -----

  lemma {:induction false} Padded(bytes: seq<byte>, n: nat)
    ensures FromBigEndian(bytes + Zeros(n)) == FromBigEndian(bytes) * Pow256(n)
  {
    if n == 0 {
      assert bytes + Zeros(0) == bytes;
    } else {
      var number, p := FromBigEndian(bytes), Pow256(n - 1);
      Padded(bytes, n - 1);
      Regroup(number, p);
      assert bytes + Zeros(n) == bytes + Zeros(n - 1) + [0];
      assert (bytes + Zeros(n))[..|bytes| + n - 1] == bytes + Zeros(n - 1);
    }
  }

  /** A number that the input breaks off: Rust fails, and Go takes the missing low bytes for zeros unless the
      input was empty. */
  lemma ShortNumber(input: seq<byte>, n: nat)
    requires |input| < n
    ensures ReadUint(Rust, input, n).Failed?
    ensures ReadUint(Go, input, n)
         == if input == [] then Failed else Parsed(FromBigEndian(input) * Pow256(n - |input|), [])
  {
    Padded(input, n - |input|);
  }
}
