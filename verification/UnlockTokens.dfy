/**
 * The short-lived tokens that carry a visitor's data key: an expiry and the key, sealed for one slug under a
 * server-side key. The cipher is a log of what was sealed: it opens what it made, under the key and label it was
 * made with, and nothing else. Ciphertexts are the caller's choice and must be new, as random nonces make them.
 */
module UnlockTokens {
  import opened Wrappers
  import opened ByteStrings
  import opened Clock
  import opened Sealing
  import Base64Url

  const TOKEN_LEN := 8 + KEY_LEN

  function ToUint64(x: int): (u: nat)
    ensures u < TWO_TO_THE_64
  {
    x % TWO_TO_THE_64
  }

  function ToInt64(u: nat): int
    requires u < TWO_TO_THE_64
  {
    if u < TWO_TO_THE_63 then u else u - TWO_TO_THE_64
  }

  lemma SignedRoundTrip(x: int)
    requires -TWO_TO_THE_63 <= x < TWO_TO_THE_63
    ensures ToInt64(ToUint64(x)) == x
  {
    if x < 0 {
      assert x % TWO_TO_THE_64 == x + TWO_TO_THE_64;
    }
  }

  function Payload(expiry: int, dek: seq<Byte>): seq<Byte> {
    BigEndian(ToUint64(expiry), 8) + dek
  }

  function ExpiryOf(payload: seq<Byte>): int
    requires |payload| == TOKEN_LEN
  {
    LengthFits();
    ToInt64(FromBigEndian(payload[..8]))
  }

  lemma LengthFits()
    ensures Pow256(8) == TWO_TO_THE_64
  {
    assert Pow256(4) == 0x1_0000_0000;
  }

  /** The payload gives back the expiry, negative or not, and the key. */
  lemma PayloadRoundTrip(expiry: int, dek: Dek)
    requires -TWO_TO_THE_63 <= expiry < TWO_TO_THE_63
    ensures var p := Payload(expiry, dek); |p| == TOKEN_LEN && ExpiryOf(p) == expiry && p[8..] == dek
  {
    LengthRoundTrip(ToUint64(expiry));
    SignedRoundTrip(expiry);
    assert Payload(expiry, dek)[..8] == BigEndian(ToUint64(expiry), 8);
  }

  /** And every 40 bytes are the payload of one expiry and one key, those that are read from it. */
  lemma PayloadIsExact(payload: seq<Byte>)
    requires |payload| == TOKEN_LEN
    ensures -TWO_TO_THE_63 <= ExpiryOf(payload) < TWO_TO_THE_63 && |payload[8..]| == KEY_LEN
    ensures Payload(ExpiryOf(payload), payload[8..]) == payload
  {
    LengthFits();
    var u := FromBigEndian(payload[..8]);
    assert ToUint64(ToInt64(u)) == u;
    FromBigEndianRoundTrip(payload[..8]);
  }

  // ----- Minted tokens ------------------------------------------------------------------------------------

  /** The token key derived from an application secret. */
  datatype TokenKey = TokenKey(secret: string)

  /** A token once handed out: under which key, for which slug, with which data key, at what time and for how long. */
  datatype Mint = Mint(key: TokenKey, slug: GoString, dek: Dek, at: Instant, ttl: Lifetime)
  {
    /** When the token stops working. */
    function Until(): int {
      Deadline(at, ttl)
    }
  }

  /** What a token is good for at a server with this key, by the record of what was handed out anywhere. */
  function Redeem(minted: map<seq<Byte>, Mint>, key: TokenKey, slug: GoString, token: string,
                  now: Instant): Option<Dek> {
    match Base64Url.Decode(token)
    case None => None
    case Some(raw) =>
      if raw in minted && minted[raw].key == key && minted[raw].slug == slug && now < minted[raw].Until()
      then Some(minted[raw].dek) else None
  }

  /**
   * A new token works at every server with the secret it was made with, whichever server made it, for its slug only,
   * until its deadline, which comes in the last second of its lifetime; earlier tokens work as they did.
   */
  lemma MintingIsExact(minted: map<seq<Byte>, Mint>, sealed: seq<Byte>, mint: Mint, key: TokenKey, slug: GoString,
                       now: Instant, other: string)
    ensures Redeem(minted[sealed := mint], key, slug, Base64Url.Encode(sealed), now) ==
            if key == mint.key && slug == mint.slug && now < mint.Until() then Some(mint.dek) else None
    ensures mint.ttl - SECOND < mint.Until() - mint.at <= mint.ttl
    ensures Base64Url.Decode(other) != Some(sealed) ==>
              Redeem(minted[sealed := mint], key, slug, other, now) == Redeem(minted, key, slug, other, now)
  {
    Base64Url.RoundTrip(sealed);
    WindowLength(mint.at, mint.ttl);
  }

  /**
   * A token gives a key exactly when it is on the record under this key, for this slug, and its last second has not
   * come.
   */
  lemma RedeemedExactly(minted: map<seq<Byte>, Mint>, key: TokenKey, slug: GoString, token: string, now: Instant,
                        dek: Dek)
    ensures Redeem(minted, key, slug, token, now) == Some(dek) <==>
            exists raw :: raw in minted && Base64Url.Decode(token) == Some(raw)
                          && minted[raw].key == key && minted[raw].slug == slug && minted[raw].dek == dek
                          && now < (minted[raw].at + minted[raw].ttl) / 1_000_000_000 * 1_000_000_000
  {
    hide Base64Url.Decode;
  }

  // ----- The cipher and the unlocker -----------------------------------------------------------------------

  datatype Sealed = Sealed(key: TokenKey, aad: seq<Byte>, payload: seq<Byte>)

  /** What the cipher seals when a token is minted. */
  function SealedFor(mint: Mint): Sealed {
    Sealed(mint.key, UnlockAad(mint.slug), Payload(Unix(mint.at + mint.ttl), mint.dek))
  }

  /** The token's plaintext, filled into one buffer: eight bytes of expiry, then the key. */
  method FillPayload(expiry: int, dek: Dek) returns (payload: seq<Byte>)
    ensures payload == Payload(expiry, dek)
  {
    var buffer := new Byte[TOKEN_LEN];
    var seconds := BigEndian(ToUint64(expiry), 8);
    forall i | 0 <= i < 8 {
      buffer[i] := seconds[i];
    }
    forall i | 0 <= i < KEY_LEN {
      buffer[8 + i] := dek[i];
    }
    payload := buffer[..];
    assert payload == Payload(expiry, dek);
  }

  /** Every sealing of a token by any process, running or past, under any secret. */
  class Cipher {
    var log: map<seq<Byte>, Sealed>
    /** The same, as tokens. */
    ghost var minted: map<seq<Byte>, Mint>

    /** Token keys seal tokens only. */
    ghost predicate Valid()
      reads this
    {
      minted.Keys == log.Keys && forall c :: c in log ==> log[c] == SealedFor(minted[c])
    }

    constructor ()
      ensures Valid() && log == map[]
    {
      log, minted := map[], map[];
    }

    method Seal(key: TokenKey, aad: seq<Byte>, payload: seq<Byte>, ciphertext: seq<Byte>, ghost mint: Mint)
      requires Valid() && ciphertext !in log && Sealed(key, aad, payload) == SealedFor(mint)
      modifies this
      ensures Valid() && minted == old(minted)[ciphertext := mint]
    {
      log := log[ciphertext := Sealed(key, aad, payload)];
      minted := minted[ciphertext := mint];
    }

    method Open(key: TokenKey, aad: seq<Byte>, ciphertext: seq<Byte>) returns (r: Option<seq<Byte>>)
      ensures r == if ciphertext in log && log[ciphertext].key == key && log[ciphertext].aad == aad
                   then Some(log[ciphertext].payload) else None
    {
      r := None;
      if ciphertext in log && log[ciphertext].key == key && log[ciphertext].aad == aad {
        r := Some(log[ciphertext].payload);
      }
    }
  }

  /** One process's unlocker. Any number of them may share a secret, at the same time or one after another. */
  class Unlocker {
    const key: TokenKey
    const ttl: Lifetime
    const cipher: Cipher

    constructor (secret: string, ttl: Lifetime, cipher: Cipher)
      ensures key == TokenKey(secret) && this.ttl == ttl && this.cipher == cipher
    {
      key, this.ttl, this.cipher := TokenKey(secret), ttl, cipher;
    }

    /** A blank secret or a lifetime that is not positive makes no unlocker. */
    static method New(secret: string, ttl: int, cipher: Cipher) returns (unlocker: Option<Unlocker>)
      requires ttl < TWO_TO_THE_63
      ensures unlocker.Some? <==> secret != "" && ttl > 0
      ensures unlocker.Some? ==> fresh(unlocker.value) && unlocker.value.key == TokenKey(secret)
                                 && unlocker.value.ttl == ttl && unlocker.value.cipher == cipher
    {
      if secret == "" || ttl <= 0 {
        return None;
      }
      var u := new Unlocker(secret, ttl, cipher);
      unlocker := Some(u);
    }

    method Seal(slug: GoString, dek: seq<Byte>, now: Instant, ciphertext: seq<Byte>) returns (token: Option<string>)
      requires cipher.Valid() && ciphertext !in cipher.log
      modifies cipher
      ensures cipher.Valid()
      ensures token == if |dek| == KEY_LEN then Some(Base64Url.Encode(ciphertext)) else None
      ensures cipher.minted == if |dek| == KEY_LEN then old(cipher.minted)[ciphertext := Mint(key, slug, dek, now, ttl)]
                               else old(cipher.minted)
    {
      if |dek| != KEY_LEN {
        return None;
      }
      var payload := FillPayload(Unix(now + ttl), dek);
      cipher.Seal(key, UnlockAad(slug), payload, ciphertext, Mint(key, slug, dek, now, ttl));
      token := Some(Base64Url.Encode(ciphertext));
    }

    /**
     * A token opens exactly when some process minted it with this secret for this slug and its deadline has not come.
     */
    method Open(slug: GoString, token: string, now: Instant) returns (r: Option<Dek>)
      requires cipher.Valid()
      ensures r == Redeem(cipher.minted, key, slug, token, now)
    {
      var raw := Base64Url.Decode(token);
      if raw.None? {
        return None;
      }
      var payload := cipher.Open(key, UnlockAad(slug), raw.value);
      if raw.value in cipher.log {
        MintedPayload(cipher.minted[raw.value], slug);
      }
      if payload.None? || |payload.value| != TOKEN_LEN {
        return None;
      }
      SecondsDecide(now, cipher.minted[raw.value].at + cipher.minted[raw.value].ttl);
      if Unix(now) >= ExpiryOf(payload.value) {
        return None;
      }
      r := Some(payload.value[8..]);
    }
  }

  /** What opening finds of a minted token. */
  lemma MintedPayload(mint: Mint, slug: GoString)
    ensures UnlockAad(slug) == SealedFor(mint).aad <==> slug == mint.slug
    ensures var p := SealedFor(mint).payload;
            |p| == TOKEN_LEN && ExpiryOf(p) == Unix(mint.at + mint.ttl) && p[8..] == mint.dek
  {
    SlugAadInjective(slug, mint.slug);
    ExpiryInRange(mint.at, mint.ttl);
    PayloadRoundTrip(Unix(mint.at + mint.ttl), mint.dek);
  }
}
