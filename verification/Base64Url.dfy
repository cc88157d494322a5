/** Unpadded base64url (section 5 of RFC 4648), as the unlock token is written into a cookie. */
module Base64Url {
  import opened Wrappers
  import opened ByteStrings

  type Sextet = v: int | 0 <= v < 64

  function Digit(v: Sextet): (c: char)
    ensures Value(c) == Some(v)
  {
    if v < 26 then ('A' as int + v) as char
    else if v < 52 then ('a' as int + v - 26) as char
    else if v < 62 then ('0' as int + v - 52) as char
    else if v == 62 then '-' else '_'
  }

  function Value(c: char): Option<Sextet> {
    if 'A' <= c <= 'Z' then Some(c as int - 'A' as int)
    else if 'a' <= c <= 'z' then Some(c as int - 'a' as int + 26)
    else if '0' <= c <= '9' then Some(c as int - '0' as int + 52)
    else if c == '-' then Some(62)
    else if c == '_' then Some(63)
    else None
  }

  function Encode(b: seq<Byte>): (text: string)
    ensures forall i :: 0 <= i < |text| ==> Value(text[i]).Some?
  {
    if |b| == 0 then ""
    else if |b| == 1 then [Digit(b[0] / 4), Digit(b[0] % 4 * 16)]
    else if |b| == 2 then [Digit(b[0] / 4), Digit(b[0] % 4 * 16 + b[1] / 16), Digit(b[1] % 16 * 4)]
    else
      [Digit(b[0] / 4), Digit(b[0] % 4 * 16 + b[1] / 16), Digit(b[1] % 16 * 4 + b[2] / 64), Digit(b[2] % 64)]
      + Encode(b[3..])
  }

  /** The decoder skips line breaks wherever they stand. */
  function StripLineBreaks(text: string): string {
    if text == "" then ""
    else if text[0] == '\r' || text[0] == '\n' then StripLineBreaks(text[1..])
    else [text[0]] + StripLineBreaks(text[1..])
  }

  function Decode(text: string): Option<seq<Byte>> {
    DecodeDigits(StripLineBreaks(text))
  }

  /** A final group of two or three digits leaves its low bits unread; a final single digit is an error. */
  function DecodeDigits(s: string): (r: Option<seq<Byte>>)
  {
    if |s| == 0 then Some([])
    else if |s| == 1 then None
    else
      match (Value(s[0]), Value(s[1]))
      case (Some(v0), Some(v1)) =>
        var b0 := v0 * 4 + v1 / 16;
        if |s| == 2 then Some([b0]) else
        (match Value(s[2])
         case None => None
         case Some(v2) =>
           var b1 := v1 % 16 * 16 + v2 / 4;
           if |s| == 3 then Some([b0, b1]) else
           (match (Value(s[3]), DecodeDigits(s[4..]))
            case (Some(v3), Some(rest)) => Some([b0, b1, v2 % 4 * 64 + v3] + rest)
            case _ => None))
      case _ => None
  }

  lemma {:induction false} StripKeepsDigits(text: string)
    requires forall i :: 0 <= i < |text| ==> Value(text[i]).Some?
    ensures StripLineBreaks(text) == text
  {
    if text == "" {
    } else {
      assert Value(text[0]).Some?;
      StripKeepsDigits(text[1..]);
    }
  }

  /** The arithmetic of one group: three bytes survive being cut into four sextets. */
  lemma GroupRejoins(b0: Byte, b1: Byte, b2: Byte)
    ensures b0 / 4 * 4 + (b0 % 4 * 16 + b1 / 16) / 16 == b0
    ensures (b0 % 4 * 16 + b1 / 16) % 16 * 16 + (b1 % 16 * 4 + b2 / 64) / 4 == b1
    ensures (b1 % 16 * 4 + b2 / 64) % 4 * 64 + b2 % 64 == b2
  {
  }

  lemma DecodeGroup(b0: Byte, b1: Byte, b2: Byte, rest: string)
    requires DecodeDigits(rest).Some?
    ensures DecodeDigits([Digit(b0 / 4), Digit(b0 % 4 * 16 + b1 / 16), Digit(b1 % 16 * 4 + b2 / 64),
                          Digit(b2 % 64)] + rest)
            == Some([b0, b1, b2] + DecodeDigits(rest).value)
  {
    var text := [Digit(b0 / 4), Digit(b0 % 4 * 16 + b1 / 16), Digit(b1 % 16 * 4 + b2 / 64), Digit(b2 % 64)] + rest;
    assert text[4..] == rest;
    GroupRejoins(b0, b1, b2);
  }

  lemma DecodeTail(b0: Byte, b1: Byte)
    ensures DecodeDigits(Encode([b0])) == Some([b0])
    ensures DecodeDigits(Encode([b0, b1])) == Some([b0, b1])
  {
    GroupRejoins(b0, 0, 0);
    GroupRejoins(b0, b1, 0);
  }

  lemma {:induction false} DecodeDigitsRoundTrip(b: seq<Byte>)
    ensures DecodeDigits(Encode(b)) == Some(b)
  {
    if |b| == 0 {
    } else if |b| == 1 {
      assert b == [b[0]];
      DecodeTail(b[0], 0);
    } else if |b| == 2 {
      assert b == [b[0], b[1]];
      DecodeTail(b[0], b[1]);
    } else {
      DecodeDigitsRoundTrip(b[3..]);
      DecodeGroup(b[0], b[1], b[2], Encode(b[3..]));
      assert b == [b[0], b[1], b[2]] + b[3..];
    }
  }

  lemma RoundTrip(b: seq<Byte>)
    ensures Decode(Encode(b)) == Some(b)
  {
    StripKeepsDigits(Encode(b));
    DecodeDigitsRoundTrip(b);
  }
}
