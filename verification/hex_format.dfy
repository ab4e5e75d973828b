/** The hex rendering both client services put into a data broadcast:
    `data.joinToString(" ") { String.format("%02X", it) }`, its inverse, and
    the "null or empty adds nothing" guard around it. */
module HexFormat {
  import opened BleTypes

  /** The number `%02X` prints for a byte: Java's formatter adds 2^8 to a
      negative `Byte` before formatting it. */
  function Unsigned(b: Byte): (u: int)
    ensures 0 <= u < 256
    ensures u == if b < 0 then b as int + 256 else b as int
  {
    b as int % 256
  }

  /** The byte whose unsigned value is `u`. */
  function ToByte(u: int): (b: Byte)
    requires 0 <= u < 256
    ensures Unsigned(b) == u
  {
    if u < 128 then u as Byte else (u - 256) as Byte
  }

  predicate IsHexDigit(c: char) {
    '0' <= c <= '9' || 'A' <= c <= 'F'
  }

  /** The value of an upper-case hex digit. */
  function DigitValue(c: char): (v: int)
    requires IsHexDigit(c)
    ensures 0 <= v < 16
  {
    if c <= '9' then c as int - '0' as int else c as int - 'A' as int + 10
  }

  /** The upper-case hex digit for a value below 16. */
  function HexDigit(v: int): (c: char)
    requires 0 <= v < 16
    ensures IsHexDigit(c) && DigitValue(c) == v
  {
    if v < 10 then ('0' as int + v) as char else ('A' as int + v - 10) as char
  }

  /** `String.format("%02X", b)`: exactly two upper-case hex digits, high
      nibble first. */
  function HexPair(b: Byte): (s: string)
    ensures |s| == 2 && IsHexDigit(s[0]) && IsHexDigit(s[1])
    ensures 16 * DigitValue(s[0]) + DigitValue(s[1]) == Unsigned(b)
  {
    [HexDigit(Unsigned(b) / 16), HexDigit(Unsigned(b) % 16)]
  }

  /** `data.joinToString(" ") { String.format("%02X", it) }`. */
  function JoinHex(data: seq<Byte>): (s: string)
    ensures |data| == 0 ==> s == ""
    ensures |data| > 0 ==> |s| == 3 * |data| - 1
    decreases |data|
  {
    if |data| == 0 then ""
    else if |data| == 1 then HexPair(data[0])
    else HexPair(data[0]) + " " + JoinHex(data[1..])
  }

  /** Byte i of the input is rendered at positions 3i and 3i+1, and a single
      space follows every pair but the last. */
  lemma {:induction false} JoinHexAt(data: seq<Byte>, i: int)
    requires 0 <= i < |data|
    ensures 3 * i + 2 <= |JoinHex(data)|
    ensures JoinHex(data)[3 * i .. 3 * i + 2] == HexPair(data[i])
    ensures i < |data| - 1 ==> JoinHex(data)[3 * i + 2] == ' '
    decreases |data|
  {
    if i > 0 {
      JoinHexAt(data[1..], i - 1);
      var tail := JoinHex(data[1..]);
      assert JoinHex(data) == HexPair(data[0]) + " " + tail;
      assert JoinHex(data)[3 * i .. 3 * i + 2] == tail[3 * (i - 1) .. 3 * (i - 1) + 2];
    } else if |data| > 1 {
      assert JoinHex(data) == HexPair(data[0]) + " " + JoinHex(data[1..]);
    }
  }

  /** The byte a two-digit upper-case hex pair stands for, if it is one. */
  function PairByte(p: string): (r: Option<Byte>)
    requires |p| == 2
    ensures r.Some? <==> IsHexDigit(p[0]) && IsHexDigit(p[1])
  {
    if IsHexDigit(p[0]) && IsHexDigit(p[1]) then Some(ToByte(16 * DigitValue(p[0]) + DigitValue(p[1])))
    else None
  }

  /** Reads back one or more space-separated hex pairs. */
  function ParsePairs(s: string): Option<seq<Byte>>
    decreases |s|
  {
    if |s| < 2 then None
    else match PairByte(s[..2])
      case None => None
      case Some(b) =>
        if |s| == 2 then Some([b])
        else if |s| >= 5 && s[2] == ' ' then
          match ParsePairs(s[3..])
          case None => None
          case Some(rest) => Some([b] + rest)
        else None
  }

  /** The inverse of JoinHex: the bytes a rendering stands for, or None when
      the text is not a rendering of any byte sequence. */
  function ParseHex(s: string): Option<seq<Byte>> {
    if s == "" then Some([]) else ParsePairs(s)
  }

  lemma ByteOfPair(b: Byte)
    ensures PairByte(HexPair(b)) == Some(b)
  {
    var p := HexPair(b);
    assert ToByte(16 * DigitValue(p[0]) + DigitValue(p[1])) == b;
  }

  lemma DigitRoundTrip(c: char)
    requires IsHexDigit(c)
    ensures HexDigit(DigitValue(c)) == c
  {
  }

  lemma PairOfByte(p: string, b: Byte)
    requires |p| == 2 && PairByte(p) == Some(b)
    ensures HexPair(b) == p
  {
    var hi, lo := DigitValue(p[0]), DigitValue(p[1]);
    assert Unsigned(b) == 16 * hi + lo;
    assert Unsigned(b) / 16 == hi && Unsigned(b) % 16 == lo;
    DigitRoundTrip(p[0]);
    DigitRoundTrip(p[1]);
  }

  /** Every rendering reads back to the bytes it was made from. */
  lemma {:induction false} ParseJoinHex(data: seq<Byte>)
    ensures ParseHex(JoinHex(data)) == Some(data)
    decreases |data|
  {
    if |data| > 0 {
      var s := JoinHex(data);
      ByteOfPair(data[0]);
      if |data| == 1 {
        assert s[..2] == HexPair(data[0]);
        assert ParsePairs(s) == Some([data[0]]);
        assert data == [data[0]];
      } else {
        var tail := JoinHex(data[1..]);
        assert s == HexPair(data[0]) + " " + tail;
        assert s[..2] == HexPair(data[0]);
        assert s[3..] == tail;
        ParseJoinHex(data[1..]);
        assert data == [data[0]] + data[1..];
      }
    }
  }

  /** Every text that reads back to some bytes is exactly their rendering:
      no other text parses. */
  lemma {:induction false} JoinParseHex(s: string, data: seq<Byte>)
    requires ParseHex(s) == Some(data)
    ensures JoinHex(data) == s
    decreases |s|
  {
    if s != "" {
      var b := PairByte(s[..2]).value;
      PairOfByte(s[..2], b);
      if |s| == 2 {
        assert data == [b];
      } else {
        var rest := ParsePairs(s[3..]).value;
        assert data == [b] + rest;
        assert s[3..] != "";
        JoinParseHex(s[3..], rest);
        assert data[1..] == rest;
        assert s == s[..2] + " " + s[3..];
      }
    }
  }

  /** The hex extra a data broadcast carries for a characteristic value that
      is not the content characteristic: none for a null or empty value,
      otherwise the value's rendering. */
  function HexExtra(value: Option<seq<Byte>>): (r: Option<string>)
    ensures r.Some? <==> value.Some? && |value.value| > 0
    ensures r.Some? ==> |r.value| == 3 * |value.value| - 1
    ensures r.Some? ==> ParseHex(r.value) == value
  {
    if value.Some? && |value.value| > 0 then
      ParseJoinHex(value.value);
      Some(JoinHex(value.value))
    else
      None
  }
}
