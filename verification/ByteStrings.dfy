/** Bytes, Go strings, fixed-width integers and the additional authenticated data of the three kinds of ciphertext. */
module ByteStrings {

  type Byte = b: int | 0 <= b < 256

  const TWO_TO_THE_64: int := 0x1_0000_0000_0000_0000

  /** A Go string is a sequence of bytes; each byte is written as the character with that code. */
  type GoString = s: string | |s| < TWO_TO_THE_64 && forall i :: 0 <= i < |s| ==> s[i] as int < 256

  function Raw(s: string): (bytes: seq<Byte>)
    ensures |bytes| == |s|
  {
    seq(|s|, i requires 0 <= i < |s| => s[i] as int % 256)
  }

  lemma RawInjective(s: GoString, t: GoString)
    requires Raw(s) == Raw(t)
    ensures s == t
  {
    assert |s| == |Raw(s)| == |t|;
    forall i | 0 <= i < |s|
      ensures s[i] == t[i]
    {
      assert s[i] as int == Raw(s)[i] == Raw(t)[i] == t[i] as int;
    }
  }

  // ----- Big-endian integers --------------------------------------------------------------------

  function Pow256(width: nat): (p: nat)
    ensures p > 0
  {
    if width == 0 then 1 else 256 * Pow256(width - 1)
  }

  /** The low `width` bytes of n, most significant first. */
  function BigEndian(n: nat, width: nat): (bytes: seq<Byte>)
    ensures |bytes| == width
    decreases width, n
  {
    if width == 0 then [] else BigEndian(n / 256, width - 1) + [n % 256]
  }

  function FromBigEndian(bytes: seq<Byte>): (n: nat)
    ensures n < Pow256(|bytes|)
  {
    if bytes == [] then 0 else 256 * FromBigEndian(bytes[..|bytes| - 1]) + bytes[|bytes| - 1]
  }

  lemma {:induction false} BigEndianRoundTrip(n: nat, width: nat)
    requires n < Pow256(width)
    ensures FromBigEndian(BigEndian(n, width)) == n
  {
    if width == 0 {
    } else {
      BigEndianRoundTrip(n / 256, width - 1);
      assert BigEndian(n, width)[..width - 1] == BigEndian(n / 256, width - 1);
    }
  }

  lemma SplitLastByte(n: nat, last: Byte)
    ensures (256 * n + last) / 256 == n && (256 * n + last) % 256 == last
  {
  }

  lemma {:induction false} FromBigEndianRoundTrip(bytes: seq<Byte>)
    ensures BigEndian(FromBigEndian(bytes), |bytes|) == bytes
  {
    if bytes == [] {
    } else {
      var front, last := bytes[..|bytes| - 1], bytes[|bytes| - 1];
      FromBigEndianRoundTrip(front);
      SplitLastByte(FromBigEndian(front), last);
      assert bytes == front + [last];
    }
  }

  lemma LengthRoundTrip(n: nat)
    requires n < TWO_TO_THE_64
    ensures FromBigEndian(BigEndian(n, 8)) == n
  {
    assert Pow256(4) == 0x1_0000_0000;
    assert Pow256(8) == TWO_TO_THE_64;
    BigEndianRoundTrip(n, 8);
  }

  // ----- Additional authenticated data ------------------------------------------------------------

  const DEK_PREFIX := "easy-host/dek/v1|"
  const FILE_PREFIX := "easy-host/file/v1|"
  const UNLOCK_PREFIX := "easy-host/unlock/v1|"

  function DekAad(slug: GoString): seq<Byte> {
    Raw(DEK_PREFIX + slug)
  }

  function UnlockAad(slug: GoString): seq<Byte> {
    Raw(UNLOCK_PREFIX + slug)
  }

  function FileAad(slug: GoString, path: GoString): seq<Byte> {
    Raw(FILE_PREFIX) + BigEndian(|slug|, 8) + Raw(slug) + BigEndian(|path|, 8) + Raw(path)
  }

  /** The builder the program fills piece by piece. */
  method BuildFileAad(slug: GoString, path: GoString) returns (aad: seq<Byte>)
    ensures aad == FileAad(slug, path)
  {
    aad := Raw(FILE_PREFIX[..|FILE_PREFIX| - 1]);
    aad := aad + Raw("|");
    assert aad == Raw(FILE_PREFIX);
    var n := BigEndian(|slug|, 8);
    aad := aad + n;
    aad := aad + Raw(slug);
    n := BigEndian(|path|, 8);
    aad := aad + n;
    aad := aad + Raw(path);
  }

  lemma RawAppend(s: string, t: string)
    ensures Raw(s + t) == Raw(s) + Raw(t)
  {
  }

  lemma PrefixedInjective(prefix: string, s: GoString, t: GoString)
    requires Raw(prefix + s) == Raw(prefix + t)
    ensures s == t
  {
    RawAppend(prefix, s);
    RawAppend(prefix, t);
    assert Raw(s) == (Raw(prefix) + Raw(s))[|prefix|..] == (Raw(prefix) + Raw(t))[|prefix|..] == Raw(t);
    RawInjective(s, t);
  }

  /** One slug per wrapped-key label and per unlock-token label. */
  lemma SlugAadInjective(s: GoString, t: GoString)
    ensures DekAad(s) == DekAad(t) <==> s == t
    ensures UnlockAad(s) == UnlockAad(t) <==> s == t
  {
    if DekAad(s) == DekAad(t) {
      PrefixedInjective(DEK_PREFIX, s, t);
    }
    if UnlockAad(s) == UnlockAad(t) {
      PrefixedInjective(UNLOCK_PREFIX, s, t);
    }
  }

  lemma FileAadParts(slug: GoString, path: GoString)
    ensures var a, p, n := FileAad(slug, path), |FILE_PREFIX|, |slug|;
            && |a| == p + 16 + n + |path|
            && a[p..p + 8] == BigEndian(n, 8)
            && a[p + 8..p + 8 + n] == Raw(slug)
            && a[p + 16 + n..] == Raw(path)
  {
    var p, n := |FILE_PREFIX|, |slug|;
    var a1 := Raw(FILE_PREFIX) + BigEndian(n, 8);
    var a2 := a1 + Raw(slug);
    var a3 := a2 + BigEndian(|path|, 8);
    assert FileAad(slug, path) == a3 + Raw(path);
    assert |a1| == p + 8 && |a2| == p + 8 + n && |a3| == p + 16 + n;
  }

  /** No two (slug, path) pairs share a label. */
  lemma FileAadInjective(slug: GoString, path: GoString, slug': GoString, path': GoString)
    ensures FileAad(slug, path) == FileAad(slug', path') <==> slug == slug' && path == path'
  {
    if FileAad(slug, path) == FileAad(slug', path') {
      FileAadParts(slug, path);
      FileAadParts(slug', path');
      LengthRoundTrip(|slug|);
      LengthRoundTrip(|slug'|);
      assert |slug| == |slug'|;
      RawInjective(slug, slug');
      RawInjective(path, path');
    }
  }

  /** A label of one kind is never a label of another kind: position 10 tells them apart. */
  lemma AadFamiliesDisjoint(s: GoString, t: GoString, u: GoString, path: GoString)
    ensures DekAad(s) != UnlockAad(t)
    ensures DekAad(s) != FileAad(u, path)
    ensures UnlockAad(t) != FileAad(u, path)
  {
    assert DekAad(s)[10] == 'd' as int;
    assert UnlockAad(t)[10] == 'u' as int;
    assert FileAad(u, path)[10] == Raw(FILE_PREFIX)[10] == 'f' as int;
  }
}
