/** The recursive, depth-limited value codec: the Go writer `encodeWireValue` against the Go and the Rust
    reader. */
module ValueCodec {
  import opened Bits
  import opened Wire
  import opened Sorting
  import opened Bytes

  const MAX_DEPTH: nat := 16
  const MAX_COUNT: nat := 65535
  const TWO_63: int := 0x8000_0000_0000_0000

  type i64 = x: int | -TWO_63 <= x < TWO_63

  /** Floats are their IEEE bit patterns; structs have been reduced to their exported fields. */
  datatype Value =
    | Null
    | Bool(flag: bool)
    | Int64(signed: i64)
    | Uint64(unsigned: u64)
    | Float64(pattern: u64)
    | Text(text: Str)
    | Object(fields: map<Str, Value>)
    | List(items: seq<Value>)

  function SignedToWord(x: i64): u64 {
    if x >= 0 then x else x + TWO_64
  }

  function WordToSigned(x: u64): i64 {
    if x < TWO_63 then x else x - TWO_64
  }

  // ----- writer -----

  ghost function EncodeValue(value: Value, depth: nat): (r: Encoding)
    ensures r.Encoded? ==> r.bytes != []
    decreases value, 1, 0
  {
    if depth > MAX_DEPTH then Refused
    else
      match value
      case Null => Encoded([0])
      case Bool(flag) => Encoded([1, if flag then 1 else 0])
      case Int64(signed) => Encoded([2] + WriteU64(SignedToWord(signed)))
      case Uint64(unsigned) => Encoded([3] + WriteU64(unsigned))
      case Float64(pattern) => Encoded([4] + WriteU64(pattern))
      case Text(text) =>
        var bytes :- WriteString(text);
        Encoded([5] + bytes)
      case Object(fields) =>
        if |fields| > MAX_COUNT then Refused
        else
          var bytes :- EncodeEntries(value, SortedKeys(fields.Keys), depth + 1);
          Encoded([6] + WriteU16(|fields|) + bytes)
      case List(items) =>
        if |items| > MAX_COUNT then Refused
        else
          var bytes :- EncodeItems(value, |items|, depth + 1);
          Encoded([7] + WriteU16(|items|) + bytes)
  }

  /** The entries of `parent` under `keys`, in that order. */
  ghost function EncodeEntries(parent: Value, keys: seq<Str>, depth: nat): Encoding
    requires parent.Object? && forall k <- keys :: k in parent.fields
    decreases parent, 0, |keys|
  {
    if keys == [] then Encoded([])
    else
      var name :- WriteString(keys[0]);
      var first :- EncodeValue(parent.fields[keys[0]], depth);
      var others :- EncodeEntries(parent, keys[1..], depth);
      Encoded(name + first + others)
  }

  /** The last `count` items of `list`. */
  ghost function EncodeItems(list: Value, count: nat, depth: nat): Encoding
    requires list.List? && count <= |list.items|
    decreases list, 0, count
  {
    if count == 0 then Encoded([])
    else
      var first :- EncodeValue(list.items[|list.items| - count], depth);
      var others :- EncodeItems(list, count - 1, depth);
      Encoded(first + others)
  }

  // ----- readers -----

  function DecodeValue(dialect: Dialect, input: seq<byte>, depth: nat): (r: Parse<Value>)
    ensures r.Parsed? ==> |r.rest| < |input|
    decreases |input|, 0, 0
  {
    if depth > MAX_DEPTH then Failed
    else
      var (tag, body) :- ReadByte(input);
      DecodeBody(dialect, tag, body, depth)
  }

  /** The value after its kind byte. */
  function DecodeBody(dialect: Dialect, tag: byte, body: seq<byte>, depth: nat): (r: Parse<Value>)
    ensures r.Parsed? ==> |r.rest| <= |body|
    decreases |body|, 2, 0
  {
    match tag
    case 0 => Parsed(Null, body)
    case 1 =>
      var (flag, rest) :- ReadByte(body);
      Parsed(Bool(flag != 0), rest)
    case 2 =>
      var (word, rest) :- ReadU64(dialect, body);
      Parsed(Int64(WordToSigned(word)), rest)
    case 3 =>
      var (word, rest) :- ReadU64(dialect, body);
      Parsed(Uint64(word), rest)
    case 4 =>
      var (word, rest) :- ReadU64(dialect, body);
      Parsed(Float64(word), rest)
    case 5 =>
      var (text, rest) :- ReadString(dialect, body);
      Parsed(Text(text), rest)
    case 6 =>
      var (count, rest) :- ReadU16(dialect, body);
      var (fields, tail) :- DecodeEntries(dialect, rest, count, depth + 1, map[]);
      Parsed(Object(fields), tail)
    case 7 =>
      var (count, rest) :- ReadU16(dialect, body);
      var (items, tail) :- DecodeItems(dialect, rest, count, depth + 1);
      Parsed(List(items), tail)
    case _ => Failed
  }

  function DecodeEntries(
    dialect: Dialect, input: seq<byte>, count: nat, depth: nat, fields: map<Str, Value>): (r: Parse<map<Str, Value>>)
    ensures r.Parsed? ==> |r.rest| <= |input|
    decreases |input|, 1, count
  {
    if count == 0 then Parsed(fields, input)
    else
      var (name, body) :- ReadString(dialect, input);
      var (value, rest) :- DecodeValue(dialect, body, depth);
      DecodeEntries(dialect, rest, count - 1, depth, fields[name := value])
  }

  function DecodeItems(dialect: Dialect, input: seq<byte>, count: nat, depth: nat): (r: Parse<seq<Value>>)
    ensures r.Parsed? ==> |r.rest| <= |input|
    decreases |input|, 1, count
  {
    if count == 0 then Parsed([], input)
    else
      var (first, rest) :- DecodeValue(dialect, input, depth);
      var (others, tail) :- DecodeItems(dialect, rest, count - 1, depth);
      Parsed([first] + others, tail)
  }

  // ----- round trip -----

  /** Every string in the value, keys included, is valid UTF-8. */
  ghost predicate Utf8Value(value: Value) {
    match value
    case Text(text) => Utf8(text)
    case Object(fields) => forall k <- fields :: Utf8(k) && Utf8Value(fields[k])
    case List(items) => forall i :: 0 <= i < |items| ==> Utf8Value(items[i])
    case _ => true
  }

  /** The encoding ends with an empty string. */
  ghost predicate EndsEmpty(value: Value) {
    match value
    case Text(text) => text == []
    case Object(fields) =>
      var keys := SortedKeys(fields.Keys);
      keys != [] && assert keys[|keys| - 1] in ElementSet(keys); EndsEmpty(fields[keys[|keys| - 1]])
    case List(items) => items != [] && EndsEmpty(items[|items| - 1])
    case _ => false
  }

  /** Where a reader gives back a value written in front of `rest`. */
  ghost predicate ReadableValue(dialect: Dialect, value: Value, rest: seq<byte>) {
    dialect.Rust? || rest != [] || !EndsEmpty(value)
  }

  lemma DecodeTagged(dialect: Dialect, tag: byte, body: seq<byte>, depth: nat)
    requires depth <= MAX_DEPTH
    ensures DecodeValue(dialect, [tag] + body, depth) == DecodeBody(dialect, tag, body, depth)
  {
    assert ([tag] + body)[1..] == body;
  }

  lemma DecodeCountedObject(dialect: Dialect, count: u16, body: seq<byte>, depth: nat)
    requires depth <= MAX_DEPTH
    ensures DecodeValue(dialect, [6] + (WriteU16(count) + body), depth)
         == match DecodeEntries(dialect, body, count, depth + 1, map[])
            case Parsed(fields, rest) => Parsed(Object(fields), rest)
            case Failed => Failed
  {
    DecodeTagged(dialect, 6, WriteU16(count) + body, depth);
    U16Back(dialect, count, body);
  }

  lemma DecodeCountedList(dialect: Dialect, count: u16, body: seq<byte>, depth: nat)
    requires depth <= MAX_DEPTH
    ensures DecodeValue(dialect, [7] + (WriteU16(count) + body), depth)
         == match DecodeItems(dialect, body, count, depth + 1)
            case Parsed(items, rest) => Parsed(List(items), rest)
            case Failed => Failed
  {
    DecodeTagged(dialect, 7, WriteU16(count) + body, depth);
    U16Back(dialect, count, body);
  }

  lemma DecodeWord(dialect: Dialect, tag: byte, word: u64, depth: nat, rest: seq<byte>)
    requires 2 <= tag <= 4 && depth <= MAX_DEPTH
    ensures DecodeValue(dialect, [tag] + (WriteU64(word) + rest), depth)
         == Parsed(if tag == 2 then Int64(WordToSigned(word))
                   else if tag == 3 then Uint64(word) else Float64(word), rest)
  {
    DecodeTagged(dialect, tag, WriteU64(word) + rest, depth);
    U64Back(dialect, word, rest);
  }

  lemma WordRoundTrip(dialect: Dialect, value: Value, depth: nat, rest: seq<byte>)
    requires value.Int64? || value.Uint64? || value.Float64?
    requires EncodeValue(value, depth).Encoded?
    ensures DecodeValue(dialect, EncodeValue(value, depth).bytes + rest, depth) == Parsed(value, rest)
  {
    var tag: byte := if value.Int64? then 2 else if value.Uint64? then 3 else 4;
    var word := if value.Int64? then SignedToWord(value.signed)
                else if value.Uint64? then value.unsigned else value.pattern;
    assert EncodeValue(value, depth).bytes + rest == [tag] + (WriteU64(word) + rest);
    DecodeWord(dialect, tag, word, depth, rest);
  }

  lemma FlagRoundTrip(dialect: Dialect, value: Value, depth: nat, rest: seq<byte>)
    requires value.Null? || value.Bool?
    requires EncodeValue(value, depth).Encoded?
    ensures DecodeValue(dialect, EncodeValue(value, depth).bytes + rest, depth) == Parsed(value, rest)
  {
    if value.Null? {
      DecodeTagged(dialect, 0, rest, depth);
    } else {
      var flag: byte := if value.flag then 1 else 0;
      assert EncodeValue(value, depth).bytes + rest == [1] + ([flag] + rest);
      DecodeTagged(dialect, 1, [flag] + rest, depth);
      assert ([flag] + rest)[1..] == rest;
    }
  }

  lemma TextRoundTrip(dialect: Dialect, text: Str, depth: nat, rest: seq<byte>)
    requires EncodeValue(Text(text), depth).Encoded?
    requires dialect.Rust? ==> Utf8(text)
    ensures DecodeValue(dialect, EncodeValue(Text(text), depth).bytes + rest, depth)
         == if Readable(dialect, text, rest) then Parsed(Text(text), rest) else Failed
  {
    var bytes := WriteString(text).bytes;
    assert EncodeValue(Text(text), depth).bytes + rest == [5] + (bytes + rest);
    DecodeTagged(dialect, 5, bytes + rest, depth);
    StringBack(dialect, text, rest);
  }

  /** The value codec round trip: the reader returns exactly the value and leaves exactly `rest`;
      the Go reader fails instead when the whole input ends in an empty string, and only then. */
  lemma {:induction false} ValueRoundTrip(dialect: Dialect, value: Value, depth: nat, rest: seq<byte>)
    requires EncodeValue(value, depth).Encoded?
    requires dialect.Rust? ==> Utf8Value(value)
    ensures DecodeValue(dialect, EncodeValue(value, depth).bytes + rest, depth)
         == if ReadableValue(dialect, value, rest) then Parsed(value, rest) else Failed
    decreases value, 1, 0
  {
    if value.Object? {
      ObjectRoundTrip(dialect, value, depth, rest);
    } else if value.List? {
      ListRoundTrip(dialect, value, depth, rest);
    } else if value.Text? {
      TextRoundTrip(dialect, value.text, depth, rest);
    } else if value.Null? || value.Bool? {
      FlagRoundTrip(dialect, value, depth, rest);
    } else {
      WordRoundTrip(dialect, value, depth, rest);
    }
  }

  lemma ObjectShape(value: Value, depth: nat)
    requires value.Object? && EncodeValue(value, depth).Encoded?
    ensures var keys := SortedKeys(value.fields.Keys);
      && (forall k <- keys :: k in value.fields)
      && EncodeEntries(value, keys, depth + 1).Encoded?
      && |value.fields| <= MAX_COUNT && depth <= MAX_DEPTH
      && EncodeValue(value, depth).bytes
         == [6] + WriteU16(|value.fields|) + EncodeEntries(value, keys, depth + 1).bytes
  {
    SelectedAll(value, SortedKeys(value.fields.Keys));
  }

  lemma ReadableObject(dialect: Dialect, value: Value, rest: seq<byte>)
    requires value.Object?
    ensures var keys := SortedKeys(value.fields.Keys);
      && (forall k <- keys :: k in value.fields)
      && (ReadableValue(dialect, value, rest)
          <==> keys == [] || ReadableValue(dialect, value.fields[keys[|keys| - 1]], rest))
  {
    var keys := SortedKeys(value.fields.Keys);
    SelectedAll(value, keys);
    assert EndsEmpty(value) <==> keys != [] && EndsEmpty(value.fields[keys[|keys| - 1]]);
  }

  /** Decoding the entries of an object is all that decoding the object takes. */
  lemma ObjectFromEntries(dialect: Dialect, value: Value, depth: nat, rest: seq<byte>, entries: seq<byte>)
    requires value.Object? && EncodeValue(value, depth).Encoded?
    requires |value.fields| <= MAX_COUNT && depth <= MAX_DEPTH
    requires EncodeValue(value, depth).bytes == [6] + WriteU16(|value.fields|) + entries
    ensures DecodeValue(dialect, EncodeValue(value, depth).bytes + rest, depth)
         == match DecodeEntries(dialect, entries + rest, |value.fields|, depth + 1, map[])
            case Parsed(fields, tail) => Parsed(Object(fields), tail)
            case Failed => Failed
  {
    var count: u16 := |value.fields|;
    assert EncodeValue(value, depth).bytes + rest == [6] + (WriteU16(count) + (entries + rest));
    DecodeCountedObject(dialect, count, entries + rest, depth);
  }

  lemma {:induction false} ObjectRoundTrip(dialect: Dialect, value: Value, depth: nat, rest: seq<byte>)
    requires value.Object? && EncodeValue(value, depth).Encoded?
    requires dialect.Rust? ==> Utf8Value(value)
    ensures DecodeValue(dialect, EncodeValue(value, depth).bytes + rest, depth)
         == if ReadableValue(dialect, value, rest) then Parsed(value, rest) else Failed
    decreases value, 0, |value.fields| + 1
  {
    var keys := SortedKeys(value.fields.Keys);
    ObjectShape(value, depth);
    ObjectFromEntries(dialect, value, depth, rest, EncodeEntries(value, keys, depth + 1).bytes);
    EntriesRoundTrip(dialect, value, keys, depth + 1, map[], rest);
    SelectedAll(value, keys);
    ReadableObject(dialect, value, rest);
  }

  lemma {:induction false} ListRoundTrip(dialect: Dialect, value: Value, depth: nat, rest: seq<byte>)
    requires value.List? && EncodeValue(value, depth).Encoded?
    requires dialect.Rust? ==> Utf8Value(value)
    ensures DecodeValue(dialect, EncodeValue(value, depth).bytes + rest, depth)
         == if ReadableValue(dialect, value, rest) then Parsed(value, rest) else Failed
    decreases value, 0, |value.items| + 1
  {
    var count: u16 := |value.items|;
    var encoded := EncodeItems(value, count, depth + 1).bytes;
    assert EncodeValue(value, depth).bytes + rest == [7] + (WriteU16(count) + (encoded + rest));
    DecodeCountedList(dialect, count, encoded + rest, depth);
    ItemsRoundTrip(dialect, value, count, depth + 1, rest);
  }

  ghost function Selected(parent: Value, keys: seq<Str>): map<Str, Value>
    requires parent.Object? && forall k <- keys :: k in parent.fields
  {
    map k | k in keys :: parent.fields[k]
  }

  lemma SelectedAll(parent: Value, keys: seq<Str>)
    requires parent.Object? && ElementSet(keys) == parent.fields.Keys
    ensures forall k <- keys :: k in parent.fields
    ensures map[] + Selected(parent, keys) == parent.fields
  {
    assert forall k <- keys :: k in ElementSet(keys);
  }

  lemma SelectedStep(parent: Value, keys: seq<Str>, fields: map<Str, Value>)
    requires parent.Object? && keys != [] && forall k <- keys :: k in parent.fields
    requires keys[0] !in keys[1..]
    ensures fields[keys[0] := parent.fields[keys[0]]] + Selected(parent, keys[1..]) == fields + Selected(parent, keys)
  {
    assert forall k :: k in keys <==> k == keys[0] || k in keys[1..];
  }

  lemma DecodeOneEntry(
    dialect: Dialect, name: Str, value: Value, count: nat, depth: nat, fields: map<Str, Value>, tail: seq<byte>)
    requires count > 0
    requires WriteString(name).Encoded? && EncodeValue(value, depth).Encoded?
    requires dialect.Rust? ==> Utf8(name)
    requires DecodeValue(dialect, EncodeValue(value, depth).bytes + tail, depth)
          == if ReadableValue(dialect, value, tail) then Parsed(value, tail) else Failed
    ensures DecodeEntries(
              dialect, WriteString(name).bytes + (EncodeValue(value, depth).bytes + tail), count, depth, fields)
         == if ReadableValue(dialect, value, tail)
            then DecodeEntries(dialect, tail, count - 1, depth, fields[name := value]) else Failed
  {
    StringBack(dialect, name, EncodeValue(value, depth).bytes + tail);
  }

  lemma EntriesNonEmpty(parent: Value, keys: seq<Str>, depth: nat)
    requires parent.Object? && forall k <- keys :: k in parent.fields
    requires EncodeEntries(parent, keys, depth).Encoded?
    ensures keys != [] ==> EncodeEntries(parent, keys, depth).bytes != []
  {
  }

  lemma {:induction false} EntriesRoundTrip(
    dialect: Dialect, parent: Value, keys: seq<Str>, depth: nat, fields: map<Str, Value>, rest: seq<byte>)
    requires parent.Object? && forall k <- keys :: k in parent.fields
    requires Ascending(keys, StrLess)
    requires EncodeEntries(parent, keys, depth).Encoded?
    requires dialect.Rust? ==> Utf8Value(parent)
    ensures DecodeEntries(dialect, EncodeEntries(parent, keys, depth).bytes + rest, |keys|, depth, fields)
         == if keys == [] || ReadableValue(dialect, parent.fields[keys[|keys| - 1]], rest)
            then Parsed(fields + Selected(parent, keys), rest) else Failed
    decreases parent, 0, |keys|
  {
    if keys == [] {
      assert fields + Selected(parent, keys) == fields;
    } else {
      var name := WriteString(keys[0]).bytes;
      var value := parent.fields[keys[0]];
      var first := EncodeValue(value, depth).bytes;
      var others := EncodeEntries(parent, keys[1..], depth).bytes;
      Assoc4(name, first, others, rest);
      ValueRoundTrip(dialect, value, depth, others + rest);
      DecodeOneEntry(dialect, keys[0], value, |keys|, depth, fields, others + rest);
      EntriesNonEmpty(parent, keys[1..], depth);
      FirstKeyDistinct(keys);
      EntriesRoundTrip(dialect, parent, keys[1..], depth, fields[keys[0] := value], rest);
      SelectedStep(parent, keys, fields);
      if |keys| == 1 {
        assert others + rest == rest;
      } else {
        assert ReadableValue(dialect, value, others + rest);
        assert keys[1..][|keys| - 2] == keys[|keys| - 1];
      }
    }
  }

  lemma ItemsNonEmpty(list: Value, count: nat, depth: nat)
    requires list.List? && count <= |list.items|
    requires EncodeItems(list, count, depth).Encoded?
    ensures count > 0 ==> EncodeItems(list, count, depth).bytes != []
  {
  }

  lemma TailStep(items: seq<Value>, count: nat)
    requires 0 < count <= |items|
    ensures items[|items| - count..] == [items[|items| - count]] + items[|items| - (count - 1)..]
  {
  }

  lemma DecodeOneItem(dialect: Dialect, value: Value, count: nat, depth: nat, tail: seq<byte>)
    requires count > 0 && EncodeValue(value, depth).Encoded?
    requires DecodeValue(dialect, EncodeValue(value, depth).bytes + tail, depth)
          == if ReadableValue(dialect, value, tail) then Parsed(value, tail) else Failed
    ensures DecodeItems(dialect, EncodeValue(value, depth).bytes + tail, count, depth)
         == if !ReadableValue(dialect, value, tail) then Failed
            else
              match DecodeItems(dialect, tail, count - 1, depth)
              case Parsed(others, rest) => Parsed([value] + others, rest)
              case Failed => Failed
  {
  }

  /** What `ItemsRoundTrip` says. */
  ghost predicate ItemsComeBack(dialect: Dialect, list: Value, count: nat, depth: nat, rest: seq<byte>)
    requires list.List? && count <= |list.items|
  {
    EncodeItems(list, count, depth).Encoded? ==>
      DecodeItems(dialect, EncodeItems(list, count, depth).bytes + rest, count, depth)
      == if count == 0 || ReadableValue(dialect, list.items[|list.items| - 1], rest)
         then Parsed(list.items[|list.items| - count..], rest) else Failed
  }

  lemma ItemsStep(dialect: Dialect, list: Value, count: nat, depth: nat, rest: seq<byte>)
    requires list.List? && 0 < count <= |list.items| && EncodeItems(list, count, depth).Encoded?
    requires ItemsComeBack(dialect, list, count - 1, depth, rest)
    requires var value, tail := list.items[|list.items| - count], EncodeItems(list, count - 1, depth).bytes + rest;
      DecodeValue(dialect, EncodeValue(value, depth).bytes + tail, depth)
      == if ReadableValue(dialect, value, tail) then Parsed(value, tail) else Failed
    ensures ItemsComeBack(dialect, list, count, depth, rest)
  {
    var value := list.items[|list.items| - count];
    var first, others := EncodeValue(value, depth).bytes, EncodeItems(list, count - 1, depth).bytes;
    Assoc(first, others, rest);
    ItemsNonEmpty(list, count - 1, depth);
    DecodeOneItem(dialect, value, count, depth, others + rest);
    TailStep(list.items, count);
    if count == 1 {
      assert others + rest == rest;
    }
  }

  lemma {:induction false} ItemsRoundTrip(dialect: Dialect, list: Value, count: nat, depth: nat, rest: seq<byte>)
    requires list.List? && count <= |list.items|
    requires EncodeItems(list, count, depth).Encoded?
    requires dialect.Rust? ==> Utf8Value(list)
    ensures DecodeItems(dialect, EncodeItems(list, count, depth).bytes + rest, count, depth)
         == if count == 0 || ReadableValue(dialect, list.items[|list.items| - 1], rest)
            then Parsed(list.items[|list.items| - count..], rest) else Failed
    decreases list, 0, count
  {
    if count > 0 {
      var tail := EncodeItems(list, count - 1, depth).bytes + rest;
      ValueRoundTrip(dialect, list.items[|list.items| - count], depth, tail);
      ItemsRoundTrip(dialect, list, count - 1, depth, rest);
      ItemsStep(dialect, list, count, depth, rest);
    } else {
      assert [] + rest == rest && list.items[|list.items|..] == [];
    }
  }
}
