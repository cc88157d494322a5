/**
 * Envelope encryption over symbolic ciphertexts. A sealed payload is the term Box(key, nonce, label,
 * contents): it opens under the key and the label it was made with, and under nothing else. Randomness is
 * passed in as a Draw; where a result needs draws not to repeat, the result says so.
 */
module Sealing {
  import opened Wrappers
  import opened ByteStrings
  import KdfParams

  datatype Error =
    | NotFound | SlugExists | InvalidSlug | InvalidFilePath
    | PassphraseRequired | WrongPassphrase | NotEncrypted
    | EmptyPassphrase | UnsupportedKdf | Corrupted | IncompleteEnvelope
    | BadArchive | StorageFailure

  const KEY_LEN := 32
  const SALT_LEN := 16

  type Dek = k: seq<Byte> | |k| == KEY_LEN witness seq(KEY_LEN, i => 0)
  type Salt = s: seq<Byte> | |s| == SALT_LEN witness seq(SALT_LEN, i => 0)

  datatype Key =
    | DataKey(bytes: seq<Byte>)
    | Kek(passphrase: string, salt: seq<Byte>, params: KdfParams.Params)

  /** What a BLOB column holds. */
  datatype Blob =
    | Bytes(raw: seq<Byte>)
    | Box(key: Key, nonce: seq<Byte>, aad: seq<Byte>, contents: Blob)

  /** The random values one request draws; fileNonce(f) is drawn for the payload stored in file row f. */
  datatype Draw = Draw(dek: Dek, salt: Salt, wrapNonce: seq<Byte>, fileNonce: nat -> seq<Byte>)

  datatype Envelope = Envelope(kdf: string, salt: seq<Byte>, wrapped: Blob)

  /** The cipher takes 32-byte keys only; derived keys always have that length. */
  predicate UsableKey(key: Key) {
    key.DataKey? ==> |key.bytes| == KEY_LEN
  }

  function Seal(key: Key, nonce: seq<Byte>, aad: seq<Byte>, plain: Blob): Blob
    requires UsableKey(key)
  {
    Box(key, nonce, aad, plain)
  }

  function Open(key: Key, aad: seq<Byte>, sealed: Blob): Option<Blob> {
    if UsableKey(key) && sealed.Box? && sealed.key == key && sealed.aad == aad then Some(sealed.contents) else None
  }

  function NewEnvelope(passphrase: string, slug: GoString, draw: Draw): Result<(Envelope, Dek), Error> {
    if passphrase == "" then Err(EmptyPassphrase)
    else Ok((WrapKey(draw.dek, passphrase, slug, draw), draw.dek))
  }

  function WrapKey(dek: Dek, passphrase: string, slug: GoString, draw: Draw): Envelope {
    WrapWith(dek, passphrase, slug, draw, KdfParams.DEFAULT_PARAMS)
  }

  /** The envelope that a version of the program with these default parameters makes. */
  function WrapWith(dek: Dek, passphrase: string, slug: GoString, draw: Draw, params: KdfParams.Params): Envelope {
    Envelope(KdfParams.Print(params), draw.salt,
             Seal(Kek(passphrase, draw.salt, params), draw.wrapNonce, DekAad(slug), Bytes(dek)))
  }

  function Unwrap(env: Envelope, passphrase: string, slug: GoString): Result<Dek, Error> {
    if passphrase == "" then Err(EmptyPassphrase)
    else
      match KdfParams.Parse(env.kdf)
      case Err(_) => Err(UnsupportedKdf)
      case Ok(params) =>
        if env.salt == [] || env.wrapped == Bytes([]) then Err(Corrupted)
        else
          match Open(Kek(passphrase, env.salt, params), DekAad(slug), env.wrapped)
          case None => Err(WrongPassphrase)
          case Some(Bytes(dek)) => if |dek| == KEY_LEN then Ok(dek) else Err(Corrupted)
          case Some(_) => Err(Corrupted)
  }

  /** A payload as it is stored: sealed for its place when the entry has a data key, as it came otherwise. */
  function Encode(key: Option<Dek>, slug: GoString, path: GoString, data: Blob, nonce: seq<Byte>): Blob {
    match key
    case None => data
    case Some(dek) => Seal(DataKey(dek), nonce, FileAad(slug, path), data)
  }

  function Decode(key: Option<Dek>, slug: GoString, path: GoString, stored: Blob): Option<Blob> {
    match key
    case None => Some(stored)
    case Some(dek) => Open(DataKey(dek), FileAad(slug, path), stored)
  }

  /** No layer of the blob is sealed under dek. */
  predicate Avoids(blob: Blob, dek: seq<Byte>) {
    blob.Box? ==> blob.key != DataKey(dek) && Avoids(blob.contents, dek)
  }

  // ----- Exactness ----------------------------------------------------------------------------------

  /** The envelope wraps dek for a passphrase and a slug; its parameters, whichever they are, read back from it. */
  ghost predicate Wraps(env: Envelope, passphrase: string, dek: seq<Byte>, slug: GoString) {
    && passphrase != "" && |dek| == KEY_LEN && |env.salt| == SALT_LEN
    && env.wrapped.Box? && env.wrapped.key.Kek?
    && KdfParams.ReadsAs(env.kdf, env.wrapped.key.params)
    && env.wrapped.key == Kek(passphrase, env.salt, env.wrapped.key.params)
    && env.wrapped.aad == DekAad(slug)
    && env.wrapped.contents == Bytes(dek)
  }

  lemma NewEnvelopeWraps(passphrase: string, slug: GoString, draw: Draw)
    requires passphrase != ""
    ensures var r := NewEnvelope(passphrase, slug, draw);
            && r.Ok? && r.value.1 == draw.dek && Wraps(r.value.0, passphrase, draw.dek, slug)
            && r.value.0.salt == draw.salt && r.value.0.wrapped.nonce == draw.wrapNonce
  {
    AnyParametersWrap(draw.dek, passphrase, slug, draw, KdfParams.DEFAULT_PARAMS);
  }

  /**
   * Envelopes made under other defaults wrap their keys too, unless a parameter is zero: raising them locks nothing
   * away.
   */
  lemma AnyParametersWrap(dek: Dek, passphrase: string, slug: GoString, draw: Draw, params: KdfParams.Params)
    requires passphrase != ""
    ensures var env := WrapWith(dek, passphrase, slug, draw, params);
            var usable := params.memory > 0 && params.time > 0 && params.threads > 0;
            && (Wraps(env, passphrase, dek, slug) <==> usable)
            && Unwrap(env, passphrase, slug) == if usable then Ok(dek) else Err(UnsupportedKdf)
  {
    hide KdfParams.Print, KdfParams.Parse;
    KdfParams.PrintedReadsBack(params);
    if params.memory > 0 && params.time > 0 && params.threads > 0 {
      UnwrapExact(WrapWith(dek, passphrase, slug, draw, params), passphrase, dek, slug, passphrase, slug);
    }
  }

  /** Which envelopes give a key at all, whole or not: no other columns ever do. */
  lemma UnwrapYields(env: Envelope, passphrase: string, slug: GoString, dek: Dek)
    ensures Unwrap(env, passphrase, slug) == Ok(dek) <==>
            && passphrase != "" && KdfParams.Parse(env.kdf).Ok? && env.salt != []
            && env.wrapped.Box? && env.wrapped.key == Kek(passphrase, env.salt, KdfParams.Parse(env.kdf).value)
            && env.wrapped.aad == DekAad(slug) && env.wrapped.contents == Bytes(dek)
  {
    hide KdfParams.Parse;
  }

  /** Only the passphrase the key was wrapped with, at the slug it was wrapped for, gives the key back. */
  lemma UnwrapExact(env: Envelope, passphrase: string, dek: seq<Byte>, slug: GoString, guess: string, slug': GoString)
    requires Wraps(env, passphrase, dek, slug)
    ensures Unwrap(env, guess, slug') ==
            if guess == "" then Err(EmptyPassphrase)
            else if guess == passphrase && slug' == slug then Ok(dek)
            else Err(WrongPassphrase)
  {
    SlugAadInjective(slug, slug');
  }

  /** A file payload opens only under its own key, at its own slug and at its own path. */
  lemma FileBoundToItsPlace(dek: Dek, nonce: seq<Byte>, slug: GoString, path: GoString, data: Blob,
                            dek': seq<Byte>, slug': GoString, path': GoString)
    ensures Open(DataKey(dek'), FileAad(slug', path'), Encode(Some(dek), slug, path, data, nonce)) ==
            if dek' == dek && slug' == slug && path' == path then Some(data) else None
  {
    FileAadInjective(slug, path, slug', path');
  }

  /** A wrapped key never passes for a file payload, nor a file payload for a wrapped key, whatever the key. */
  lemma KindsNeverMix(key: Key, nonce: seq<Byte>, slug: GoString, path: GoString, slug': GoString, data: Blob)
    requires UsableKey(key)
    ensures Open(key, FileAad(slug, path), Seal(key, nonce, DekAad(slug'), data)).None?
    ensures Open(key, DekAad(slug'), Seal(key, nonce, FileAad(slug, path), data)).None?
  {
    AadFamiliesDisjoint(slug', slug', slug, path);
  }
}
