/** The Argon2id cost parameters and their persisted text form, with the scanner that reads it back. */
module KdfParams {
  import opened Wrappers

  type Uint32 = n: int | 0 <= n < 0x1_0000_0000
  type Uint8 = n: int | 0 <= n < 256

  datatype Params = Params(memory: Uint32, time: Uint32, threads: Uint8)

  const ARGON2_VERSION := 19
  const MAX_UINT32: nat := 0xFFFF_FFFF
  const MAX_UINT8: nat := 0xFF
  const MAX_INT64: nat := 0x7FFF_FFFF_FFFF_FFFF

  const DEFAULT_PARAMS := Params(64 * 1024, 3, 4)

  // ----- Printing -------------------------------------------------------------------------------

  function DigitChar(d: nat): (c: char)
    requires d < 10
    ensures IsDigit(c) && DigitValue(c) == d
  {
    ('0' as int + d) as char
  }

  predicate IsDigit(c: char) {
    '0' <= c <= '9'
  }

  function DigitValue(c: char): nat
    requires IsDigit(c)
  {
    c as int - '0' as int
  }

  function Decimal(n: nat): (text: string)
    ensures text != "" && AllDigits(text)
    ensures DecimalValue(text) == n
  {
    if n < 10 then
      assert DecimalValue([DigitChar(n)]) == 10 * DecimalValue("") + n;
      [DigitChar(n)]
    else
      var text := Decimal(n / 10) + [DigitChar(n % 10)];
      assert text[..|text| - 1] == Decimal(n / 10);
      text
  }

  predicate AllDigits(text: string) {
    forall i :: 0 <= i < |text| ==> IsDigit(text[i])
  }

  function DecimalValue(text: string): nat
    requires AllDigits(text)
  {
    if text == "" then 0
    else 10 * DecimalValue(text[..|text| - 1]) + DigitValue(text[|text| - 1])
  }

  /** One conversion of a format, with the literal text before it. */
  datatype Conversion = Signed64(prefix: string) | Unsigned(prefix: string, max: nat)

  const FORMAT: seq<Conversion> :=
    [Signed64("argon2id$v="), Unsigned("$m=", MAX_UINT32), Unsigned(",t=", MAX_UINT32), Unsigned(",p=", MAX_UINT8)]

  function PrintFormat(format: seq<Conversion>, values: seq<nat>): string
    requires |format| == |values|
  {
    if format == [] then "" else format[0].prefix + (Decimal(values[0]) + PrintFormat(format[1..], values[1..]))
  }

  function Values(p: Params): seq<nat> {
    [ARGON2_VERSION, p.memory, p.time, p.threads]
  }

  function Print(p: Params): string {
    PrintFormat(FORMAT, Values(p))
  }

  // ----- Scanning -------------------------------------------------------------------------------

  /** A scan step yields what it read and the text that is left, or fails. */
  datatype Scan<T> = Scanned(value: T, rest: string) | Failed

  function Literal(prefix: string, text: string): Scan<()> {
    if prefix <= text then Scanned((), text[|prefix|..]) else Failed
  }

  predicate IsSpace(c: char) {
    || '\t' <= c <= '\r' || c == ' ' || c == '\U{0085}' || c == '\U{00A0}' || c == '\U{1680}'
    || '\U{2000}' <= c <= '\U{200A}' || '\U{2028}' <= c <= '\U{2029}'
    || c == '\U{202F}' || c == '\U{205F}' || c == '\U{3000}'
  }

  /** Blanks before a number are skipped, but a line break is an error. */
  function SkipSpace(text: string): Scan<()> {
    if text == "" || !IsSpace(text[0]) then Scanned((), text)
    else if text[0] == '\n' then Failed
    else SkipSpace(text[1..])
  }

  /** The longest run of digits at the start of the text. */
  function TakeDigits(text: string): (digits: string)
    ensures digits <= text && AllDigits(digits)
    ensures |digits| < |text| ==> !IsDigit(text[|digits|])
  {
    if text == "" || !IsDigit(text[0]) then "" else [text[0]] + TakeDigits(text[1..])
  }

  function ScanDigits(text: string, max: nat): Scan<nat> {
    var digits := TakeDigits(text);
    if digits == "" || DecimalValue(digits) > max then Failed
    else Scanned(DecimalValue(digits), text[|digits|..])
  }

  function ScanUint(text: string, max: nat): Scan<nat> {
    match SkipSpace(text)
    case Failed => Failed
    case Scanned(_, t) => ScanDigits(t, max)
  }

  /** A signed 64-bit number; only this scan accepts a sign. */
  function ScanInt(text: string): Scan<int> {
    match SkipSpace(text)
    case Failed => Failed
    case Scanned(_, t) =>
      var negative := t != "" && t[0] == '-';
      var unsigned := if t != "" && (t[0] == '-' || t[0] == '+') then t[1..] else t;
      match ScanDigits(unsigned, if negative then MAX_INT64 + 1 else MAX_INT64)
      case Failed => Failed
      case Scanned(n, rest) => Scanned(Signed(negative, n), rest)
  }

  function Signed(negative: bool, n: nat): int {
    if negative then -(n as int) else n
  }

  function Convert(c: Conversion, text: string): Scan<int> {
    match Literal(c.prefix, text)
    case Failed => Failed
    case Scanned(_, t) =>
      match c
      case Signed64(_) => ScanInt(t)
      case Unsigned(_, max) =>
        match ScanUint(t, max)
        case Failed => Failed
        case Scanned(n, rest) => Scanned(n, rest)
  }

  /** The values a format reads from a text. Text after the last conversion is not looked at. */
  function ScanFormat(format: seq<Conversion>, text: string): (values: Option<seq<int>>)
    ensures values.Some? ==> |values.value| == |format|
    ensures values.Some? ==>
              forall i :: 0 <= i < |format| && format[i].Unsigned? ==> 0 <= values.value[i] <= format[i].max
    decreases |format|, |text|
  {
    if format == [] then Some([])
    else
      match Convert(format[0], text)
      case Failed => None
      case Scanned(v, rest) =>
        match ScanFormat(format[1..], rest)
        case None => None
        case Some(vs) => Some([v] + vs)
  }

  datatype ParseError = Unsupported | UnsupportedVersion | InvalidParams

  function Parse(text: string): (r: Result<Params, ParseError>)
    ensures r.Ok? ==> text != "" && r.value.memory > 0 && r.value.time > 0 && r.value.threads > 0
  {
    match ScanFormat(FORMAT, text)
    case None => Err(Unsupported)
    case Some(v) =>
      assert FORMAT[0].prefix <= text;
      if v[0] != ARGON2_VERSION then Err(UnsupportedVersion)
      else if v[1] == 0 || v[2] == 0 || v[3] == 0 then Err(InvalidParams)
      else Ok(Params(v[1], v[2], v[3]))
  }

  // ----- Reading back what was printed ------------------------------------------------------------

  lemma {:induction false} TakeDigitsMaximal(digits: string, rest: string)
    requires AllDigits(digits)
    requires rest == "" || !IsDigit(rest[0])
    ensures TakeDigits(digits + rest) == digits
  {
    if digits == "" {
      assert digits + rest == rest;
    } else {
      assert (digits + rest)[1..] == digits[1..] + rest;
      TakeDigitsMaximal(digits[1..], rest);
    }
  }

  lemma ScanDecimal(n: nat, rest: string, max: nat)
    requires n <= max
    requires rest == "" || !IsDigit(rest[0])
    ensures SkipSpace(Decimal(n) + rest) == Scanned((), Decimal(n) + rest)
    ensures ScanDigits(Decimal(n) + rest, max) == Scanned(n, rest)
    ensures ScanUint(Decimal(n) + rest, max) == Scanned(n, rest)
  {
    var text := Decimal(n) + rest;
    assert IsDigit(text[0]);
    TakeDigitsMaximal(Decimal(n), rest);
    assert text[|Decimal(n)|..] == rest;
  }

  lemma LiteralThen(prefix: string, rest: string)
    ensures Literal(prefix, prefix + rest) == Scanned((), rest)
  {
    assert (prefix + rest)[|prefix|..] == rest;
  }

  predicate Fits(c: Conversion, n: nat) {
    n <= if c.Unsigned? then c.max else MAX_INT64
  }

  lemma ConvertPrinted(c: Conversion, n: nat, rest: string)
    requires Fits(c, n)
    requires rest == "" || !IsDigit(rest[0])
    ensures Convert(c, c.prefix + (Decimal(n) + rest)) == Scanned(n, rest)
  {
    var t := Decimal(n) + rest;
    LiteralThen(c.prefix, t);
    ScanDecimal(n, rest, if c.Unsigned? then c.max else MAX_INT64);
    assert IsDigit(t[0]);
  }

  lemma ScanFormatStep(format: seq<Conversion>, n: nat, tail: string, text: string)
    requires format != [] && Fits(format[0], n)
    requires tail == "" || !IsDigit(tail[0])
    requires text == format[0].prefix + (Decimal(n) + tail)
    requires ScanFormat(format[1..], tail).Some?
    ensures ScanFormat(format, text) == Some([n] + ScanFormat(format[1..], tail).value)
  {
    ConvertPrinted(format[0], n, tail);
  }

  predicate DigitFree(format: seq<Conversion>) {
    forall i :: 0 <= i < |format| ==> format[i].prefix != "" && !IsDigit(format[i].prefix[0])
  }

  lemma PrintFormatHead(format: seq<Conversion>, values: seq<nat>, rest: string)
    requires |format| == |values| && DigitFree(format)
    requires rest == "" || !IsDigit(rest[0])
    ensures var text := PrintFormat(format, values) + rest; text == "" || !IsDigit(text[0])
  {
    if format != [] {
      assert (PrintFormat(format, values) + rest)[0] == format[0].prefix[0];
    }
  }

  lemma PrintFormatUnfolds(format: seq<Conversion>, values: seq<nat>, rest: string)
    requires |format| == |values| && format != []
    ensures PrintFormat(format, values) + rest ==
            format[0].prefix + (Decimal(values[0]) + (PrintFormat(format[1..], values[1..]) + rest))
  {
  }

  lemma ScanNothing(rest: string)
    ensures ScanFormat([], PrintFormat([], []) + rest) == Some([])
  {
  }

  /**
   * What a format prints, the same format scans, as long as no literal text could be read as a digit. Text
   * after the printed form changes nothing unless it starts with a digit.
   */
  lemma {:induction false} ScanPrinted(format: seq<Conversion>, values: seq<nat>, rest: string)
    requires |format| == |values| && DigitFree(format)
    requires forall i :: 0 <= i < |format| ==> Fits(format[i], values[i])
    requires rest == "" || !IsDigit(rest[0])
    ensures ScanFormat(format, PrintFormat(format, values) + rest) == Some(values)
    decreases |format|
  {
    hide ScanFormat, Convert, Decimal, PrintFormat;
    if format == [] {
      ScanNothing(rest);
      assert values == [];
    } else {
      var printed := PrintFormat(format[1..], values[1..]);
      ScanPrinted(format[1..], values[1..], rest);
      PrintFormatHead(format[1..], values[1..], rest);
      PrintFormatUnfolds(format, values, rest);
      ScanFormatStep(format, values[0], printed + rest, PrintFormat(format, values) + rest);
      assert [values[0]] + values[1..] == values;
    }
  }

  /** Every printed parameter set reads back, zero fields are refused, and text that follows is ignored. */
  lemma ParsePrinted(p: Params, rest: string)
    requires rest == "" || !IsDigit(rest[0])
    ensures Parse(Print(p) + rest) ==
            if p.memory > 0 && p.time > 0 && p.threads > 0 then Ok(p) else Err(InvalidParams)
  {
    ScanPrinted(FORMAT, Values(p), rest);
  }

  lemma ParsePrint(p: Params)
    ensures Parse(Print(p)) == Ok(p) <==> p.memory > 0 && p.time > 0 && p.threads > 0
  {
    ParsePrinted(p, "");
    assert Print(p) + "" == Print(p);
  }

  /** Zero fields print too, so injectivity is read off the scanner and not off Parse. */
  lemma PrintInjective(p: Params, q: Params)
    ensures Print(p) == Print(q) <==> p == q
  {
    hide ScanFormat, PrintFormat;
    if Print(p) == Print(q) {
      ScanPrinted(FORMAT, Values(p), "");
      ScanPrinted(FORMAT, Values(q), "");
      assert Print(p) + "" == Print(q) + "";
      assert Values(p)[1] == Values(q)[1] && Values(p)[2] == Values(q)[2] && Values(p)[3] == Values(q)[3];
    }
  }

  /**
   * The text reads back as these parameters. The quantifier keeps the scanner out of proofs that only pass the
   * fact on.
   */
  ghost predicate ReadsAs(text: string, p: Params) {
    text != "" && forall t {:trigger Parse(t)} :: t == text ==> Parse(t) == Ok(p)
  }

  lemma PrintedReadsBack(p: Params)
    ensures ReadsAs(Print(p), p) <==> p.memory > 0 && p.time > 0 && p.threads > 0
    ensures p.memory == 0 || p.time == 0 || p.threads == 0 ==> Parse(Print(p)) == Err(InvalidParams)
  {
    ParsePrinted(p, "");
    assert Print(p) + "" == Print(p);
  }
}
