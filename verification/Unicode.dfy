/** Which strings are valid UTF-8, told by code points (sections 3 and 4 of RFC 3629). */
module Unicode {
  import opened Wire
  import opened Sorting
  import opened Bytes

  /** A Unicode scalar value. */
  type Point = c: int | 0 <= c < 0xD800 || 0xE000 <= c < 0x11_0000

  function EncodePoint(c: Point): (r: seq<byte>)
    ensures |r| > 0
  {
    if c < 0x80 then [c]
    else if c < 0x800 then [0xC0 + c / 0x40, 0x80 + c % 0x40]
    else if c < 0x1_0000 then [0xE0 + c / 0x1000, 0x80 + c / 0x40 % 0x40, 0x80 + c % 0x40]
    else [0xF0 + c / 0x4_0000, 0x80 + c / 0x1000 % 0x40, 0x80 + c / 0x40 % 0x40, 0x80 + c % 0x40]
  }

  function EncodePoints(points: seq<Point>): seq<byte> {
    if points == [] then [] else EncodePoint(points[0]) + EncodePoints(points[1..])
  }

  /** A string is valid exactly if it is the encoding of some code points. */
  lemma Utf8Meaning(text: Str)
    ensures Utf8(text) <==> exists points :: EncodePoints(points) == text
  {
    if Utf8(text) {
      var points := PointsOf(text);
    }
    if points :| EncodePoints(points) == text {
      PointsAreValid(points);
    }
  }

  lemma {:induction false} PointsAreValid(points: seq<Point>)
    ensures Utf8(EncodePoints(points))
  {
    if points != [] {
      PointsAreValid(points[1..]);
      PointThen(points[0], EncodePoints(points[1..]));
    }
  }

  lemma PointThen(c: Point, rest: Str)
    requires Utf8(rest)
    ensures Utf8(EncodePoint(c) + rest)
  {
    var text := EncodePoint(c) + rest;
    assert text[|EncodePoint(c)|..] == rest;
  }

  lemma {:induction false} PointsOf(text: Str) returns (points: seq<Point>)
    requires Utf8(text)
    ensures EncodePoints(points) == text
  {
    points := [];
    if text != [] {
      var c := FirstPoint(text);
      var rest := PointsOf(text[|EncodePoint(c)|..]);
      points := [c] + rest;
    }
  }

  lemma FirstPoint(text: Str) returns (c: Point)
    requires Utf8(text) && text != []
    ensures |EncodePoint(c)| <= |text| && EncodePoint(c) == text[..|EncodePoint(c)|]
    ensures Utf8(text[|EncodePoint(c)|..])
  {
    var b := text[0];
    if b <= 0x7F {
      c := b;
      assert text[..1] == [b];
    } else if b <= 0xDF {
      c := PointOfTwo(b, text[1]);
      assert text[..2] == [b, text[1]];
    } else if b <= 0xEF {
      c := PointOfThree(b, text[1], text[2]);
      assert text[..3] == [b, text[1], text[2]];
    } else {
      c := PointOfFour(b, text[1], text[2], text[3]);
      assert text[..4] == [b, text[1], text[2], text[3]];
    }
  }

  lemma PointOfTwo(a: int, b: int) returns (c: Point)
    requires 0xC2 <= a <= 0xDF && 0x80 <= b <= 0xBF
    ensures EncodePoint(c) == [a, b]
  {
    c := (a - 0xC0) * 0x40 + (b - 0x80);
  }

  lemma PointOfThree(a: int, b: int, d: int) returns (c: Point)
    requires 0xE0 <= a <= 0xEF && 0x80 <= b <= 0xBF && 0x80 <= d <= 0xBF
    requires (a == 0xE0 ==> b >= 0xA0) && (a == 0xED ==> b <= 0x9F)
    ensures EncodePoint(c) == [a, b, d]
  {
    c := (a - 0xE0) * 0x1000 + (b - 0x80) * 0x40 + (d - 0x80);
    assert c / 0x40 == (a - 0xE0) * 0x40 + (b - 0x80);
    assert c / 0x1000 == a - 0xE0;
    assert c % 0x40 == d - 0x80;
    assert c / 0x40 % 0x40 == b - 0x80;
  }

  lemma PointOfFour(a: int, b: int, d: int, e: int) returns (c: Point)
    requires 0xF0 <= a <= 0xF4 && 0x80 <= b <= 0xBF && 0x80 <= d <= 0xBF && 0x80 <= e <= 0xBF
    requires (a == 0xF0 ==> b >= 0x90) && (a == 0xF4 ==> b <= 0x8F)
    ensures EncodePoint(c) == [a, b, d, e]
  {
    c := (a - 0xF0) * 0x4_0000 + (b - 0x80) * 0x1000 + (d - 0x80) * 0x40 + (e - 0x80);
    assert c / 0x40 == (a - 0xF0) * 0x1000 + (b - 0x80) * 0x40 + (d - 0x80);
    assert c / 0x1000 == (a - 0xF0) * 0x40 + (b - 0x80);
    assert c / 0x4_0000 == a - 0xF0;
    assert c % 0x40 == e - 0x80;
    assert c / 0x40 % 0x40 == d - 0x80;
    assert c / 0x1000 % 0x40 == b - 0x80;
  }
}
