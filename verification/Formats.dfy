/** The written forms themselves: what the encodings look like from outside, character by character. */
module Formats {
  import opened Wrappers
  import opened ByteStrings
  import opened Base64Url
  import KdfParams

  // ----- Byte strings -----------------------------------------------------------------------------------------------

  /** The first byte is the most significant one. */
  lemma {:induction false} FirstByteIsHighest(first: Byte, rest: seq<Byte>)
    ensures FromBigEndian([first] + rest) == first * Pow256(|rest|) + FromBigEndian(rest)
  {
    var bytes := [first] + rest;
    if rest == [] {
      assert bytes[..0] == [] && FromBigEndian(bytes[..0]) == 0;
    } else {
      var n := |rest| - 1;
      FirstByteIsHighest(first, rest[..n]);
      assert bytes[..|bytes| - 1] == [first] + rest[..n];
      Scale(first, Pow256(n));
    }
  }

  lemma Scale(b: int, p: int)
    ensures 256 * (b * p) == b * (256 * p)
  {
  }

  lemma RawIsBytes(s: GoString, i: nat)
    requires i < |s|
    ensures |Raw(s)| == |s| && Raw(s)[i] == s[i] as int
  {
  }

  /** The labels of the three kinds of ciphertext. */
  lemma Labels(slug: GoString, path: GoString)
    ensures DekAad(slug) == Raw("easy-host/dek/v1|") + Raw(slug)
    ensures UnlockAad(slug) == Raw("easy-host/unlock/v1|") + Raw(slug)
    ensures var a := FileAad(slug, path);
            && a[..18] == Raw("easy-host/file/v1|")
            && FromBigEndian(a[18..26]) == |slug| && a[26..26 + |slug|] == Raw(slug)
            && FromBigEndian(a[26 + |slug|..34 + |slug|]) == |path| && a[34 + |slug|..] == Raw(path)
  {
    RawAppend("easy-host/dek/v1|", slug);
    RawAppend("easy-host/unlock/v1|", slug);
    FileAadParts(slug, path);
    LengthRoundTrip(|slug|);
    LengthRoundTrip(|path|);
    var head := Raw(FILE_PREFIX) + BigEndian(|slug|, 8) + Raw(slug);
    assert FileAad(slug, path) == head + (BigEndian(|path|, 8) + Raw(path));
    assert FileAad(slug, path)[26 + |slug|..34 + |slug|] == BigEndian(|path|, 8);
  }

  // ----- Base64url --------------------------------------------------------------------------------------------------

  /** The alphabet: capitals, small letters, figures, hyphen and underscore, each in their usual order. */
  lemma DigitsInOrder(v: Sextet)
    ensures Digit(0) == 'A' && Digit(25) == 'Z' && Digit(26) == 'a' && Digit(51) == 'z'
    ensures Digit(52) == '0' && Digit(61) == '9' && Digit(62) == '-' && Digit(63) == '_'
    ensures v < 61 && v != 25 && v != 51 ==> Digit(v + 1) as int == Digit(v) as int + 1
  {
  }

  /** The number a digit stands for; nothing for another character. */
  function Weight(c: char): int {
    if Value(c).Some? then Value(c).value else 0
  }

  /** Three bytes and their four digits are the same 24 bits. */
  lemma SameBits(b: seq<Byte>)
    requires |b| >= 3
    ensures var t := Encode(b);
            && |t| >= 4 && t[4..] == Encode(b[3..])
            && Weight(t[0]) * 0x4_0000 + Weight(t[1]) * 0x1000 + Weight(t[2]) * 64 + Weight(t[3]) ==
               b[0] as int * 0x1_0000 + b[1] as int * 256 + b[2] as int
  {
  }

  predicate Digits(s: string) {
    forall i :: 0 <= i < |s| ==> Value(s[i]).Some?
  }

  /** What is decoded at all: any number of digits but one more than whole groups of four. */
  lemma {:induction false} DecodedExactly(s: string)
    ensures DecodeDigits(s).Some? <==> Digits(s) && |s| % 4 != 1
    ensures DecodeDigits(s).Some? ==> |DecodeDigits(s).value| == |s| * 3 / 4
  {
    if |s| >= 4 {
      DecodedExactly(s[4..]);
      DigitsSplit(s);
      GroupDecodes(s);
      hide Digits, DecodeDigits, Value;
    } else {
      hide Value;
    }
  }

  lemma GroupDecodes(s: string)
    requires |s| >= 4
    ensures DecodeDigits(s).Some? <==>
            && Value(s[0]).Some? && Value(s[1]).Some? && Value(s[2]).Some? && Value(s[3]).Some?
            && DecodeDigits(s[4..]).Some?
    ensures DecodeDigits(s).Some? ==> |DecodeDigits(s).value| == 3 + |DecodeDigits(s[4..]).value|
  {
    hide Value;
  }

  lemma DigitsSplit(s: string)
    requires |s| >= 4
    ensures Digits(s) <==>
            Value(s[0]).Some? && Value(s[1]).Some? && Value(s[2]).Some? && Value(s[3]).Some? && Digits(s[4..])
  {
    hide Value;
    if Digits(s[4..]) {
      assert forall i {:trigger s[i]} :: 4 <= i < |s| ==> s[i] == s[4..][i - 4];
    }
    if Digits(s) {
      assert forall i :: 0 <= i < |s[4..]| ==> s[4..][i] == s[i + 4];
    }
  }

  // ----- KDF parameters ---------------------------------------------------------------------------------------------

  /** The stored text, with its literal parts. */
  lemma PrintedText(p: KdfParams.Params)
    ensures KdfParams.Print(p) ==
            "argon2id$v=19$m=" + KdfParams.Decimal(p.memory) + ",t=" + KdfParams.Decimal(p.time) + ",p=" +
            KdfParams.Decimal(p.threads)
    ensures KdfParams.DEFAULT_PARAMS == KdfParams.Params(65536, 3, 4)
  {
    hide KdfParams.PrintFormat, KdfParams.Decimal;
    var format, values := KdfParams.FORMAT, KdfParams.Values(p);
    Nineteen();
    PrintFrom(format, values, 0);
    PrintFrom(format, values, 1);
    PrintFrom(format, values, 2);
    PrintFrom(format, values, 3);
    Concatenated(KdfParams.Decimal(p.memory), KdfParams.Decimal(p.time), KdfParams.Decimal(p.threads));
  }

  lemma Concatenated(m: string, t: string, p: string)
    ensures "argon2id$v=" + ("19" + ("$m=" + (m + (",t=" + (t + (",p=" + (p + ""))))))) ==
            "argon2id$v=19$m=" + m + ",t=" + t + ",p=" + p
  {
  }

  lemma Nineteen()
    ensures KdfParams.Decimal(19) == "19"
  {
    assert KdfParams.Decimal(1) == "1";
  }

  lemma PrintFrom(format: seq<KdfParams.Conversion>, values: seq<nat>, k: nat)
    requires |format| == |values| && k < |format|
    ensures KdfParams.PrintFormat(format[k..], values[k..]) ==
            format[k].prefix + (KdfParams.Decimal(values[k]) + KdfParams.PrintFormat(format[k + 1..], values[k + 1..]))
    ensures format[0..] == format && values[0..] == values
    ensures KdfParams.PrintFormat(format[|format|..], values[|values|..]) == ""
  {
    assert format[k..][1..] == format[k + 1..] && values[k..][1..] == values[k + 1..];
  }

  /** No leading zeros. */
  lemma {:induction false} NoLeadingZero(n: nat)
    ensures KdfParams.Decimal(n)[0] == '0' <==> n == 0
  {
    if n >= 10 {
      NoLeadingZero(n / 10);
      assert KdfParams.Decimal(n)[0] == KdfParams.Decimal(n / 10)[0];
    }
  }

  /** A text of another version is told apart from a text that is none at all. */
  lemma OtherTexts(text: string, version: nat, p: KdfParams.Params)
    requires version <= KdfParams.MAX_INT64
    ensures !("argon2id$v=" <= text) ==> KdfParams.Parse(text) == Err(KdfParams.Unsupported)
    ensures version != 19 ==>
              KdfParams.Parse(KdfParams.PrintFormat(KdfParams.FORMAT, [version, p.memory, p.time, p.threads])) ==
              Err(KdfParams.UnsupportedVersion)
  {
    var values: seq<nat> := [version, p.memory, p.time, p.threads];
    KdfParams.ScanPrinted(KdfParams.FORMAT, values, "");
    var printed := KdfParams.PrintFormat(KdfParams.FORMAT, values);
    assert printed + "" == printed;
  }
}
