/**
 * What each content request does to the tables, as a plan: the writes it makes in order, worked out from the
 * tables as it found them, and what it answers when all of them succeed.
 */
module Requests {
  import opened Wrappers
  import opened ByteStrings
  import opened Sealing
  import opened Store
  import KdfParams
  import Paths

  // ----- Uploads ----------------------------------------------------------------------------------------

  /** An archive member as the ZIP reader yields it; a member that cannot be read has no content. */
  datatype ZipItem = ZipItem(name: GoString, isDir: bool, content: Option<seq<Byte>>, contentType: string)

  /** The uploaded bytes, and what the ZIP reader makes of them (None when it refuses them). */
  datatype Upload = Upload(data: seq<Byte>, fileName: string, archive: Option<seq<ZipItem>>)

  datatype NewFile = NewFile(path: GoString, contentType: string, data: seq<Byte>)

  /** The files an upload stores before it ends or fails. */
  datatype Unpacked = Unpacked(files: seq<NewFile>, complete: bool)

  /** Lower case as far as it decides the suffix ".zip". */
  function Lower(s: string): string {
    seq(|s|, i requires 0 <= i < |s| =>
      if 'A' <= s[i] <= 'Z' then (s[i] as int + 32) as char else if s[i] == '\U{0130}' then 'i' else s[i])
  }

  predicate IsZip(fileName: string) {
    |fileName| >= 4 && Lower(fileName)[|fileName| - 4..] == ".zip"
  }

  /** What the extraction makes of one member: nothing, an error, or a file to store. */
  datatype Member = Skipped | Unreadable | Stored(file: NewFile)

  function Classify(item: ZipItem): Member {
    if item.isDir then Skipped
    else
      match Paths.StoredPath(item.name)
      case None => Skipped
      case Some(path) =>
        if item.content.None? then Unreadable else Stored(NewFile(path, item.contentType, item.content.value))
  }

  function Members(items: seq<ZipItem>): (members: seq<Member>)
    ensures |members| == |items|
  {
    seq(|items|, i requires 0 <= i < |items| => Classify(items[i]))
  }

  /** Skipped members leave no trace; the first unreadable one ends the extraction. */
  function Unpack(members: seq<Member>): Unpacked {
    if members == [] then Unpacked([], true)
    else
      match members[0]
      case Skipped => Unpack(members[1..])
      case Unreadable => Unpacked([], false)
      case Stored(file) => var rest := Unpack(members[1..]); Unpacked([file] + rest.files, rest.complete)
  }

  function UploadedFiles(u: Upload): Unpacked {
    if !IsZip(u.fileName) then Unpacked([IndexFile(u.data)], true)
    else if u.archive.None? then Unpacked([], false)
    else Unpack(Members(u.archive.value))
  }

  function IndexFile(data: seq<Byte>): NewFile {
    var path: GoString := "index.html";
    NewFile(path, "text/html", data)
  }

  // ----- Requests -----------------------------------------------------------------------------------------

  datatype CreateParams = CreateParams(
    slug: GoString, owner: string, title: string, sourceUrl: string, creator: string, allowExternal: bool,
    upload: Upload, passphrase: string)

  datatype UpdateParams = UpdateParams(
    slug: GoString, owner: string, title: Option<string>, sourceUrl: Option<string>, creator: Option<string>,
    allowExternal: Option<bool>, upload: Upload, passphrase: string, newPassphrase: string, removeEncryption: bool)
  {
    predicate Replaces() {
      |upload.data| > 0
    }
  }

  function TrimLeft(s: string): string {
    if s != "" && KdfParams.IsSpace(s[0]) then TrimLeft(s[1..]) else s
  }

  function TrimSpace(s: string): string
    decreases |s|
  {
    if s != "" && KdfParams.IsSpace(s[|s| - 1]) then TrimSpace(s[..|s| - 1]) else TrimLeft(s)
  }

  /** The title given, or the fallback when it is blank. */
  function OrElse(s: string, fallback: string): string {
    if TrimSpace(s) == "" then fallback else s
  }

  function Trimmed(change: Option<string>, current: string): string {
    match change
    case None => current
    case Some(s) => TrimSpace(s)
  }

  function WithMetadata(c: Content, p: UpdateParams): Content {
    c.(title := Trimmed(p.title, c.title), sourceUrl := Trimmed(p.sourceUrl, c.sourceUrl),
       creator := Trimmed(p.creator, c.creator),
       allowExternal := if p.allowExternal.Some? then p.allowExternal.value else c.allowExternal)
  }

  // ----- Lookups ------------------------------------------------------------------------------------------

  /** The entry a slug names. */
  ghost function Load(db: Db, slug: GoString): Result<Content, Error> {
    if Ids(db, slug) == {} then Err(NotFound)
    else
      var id :| id in Ids(db, slug);
      ScanContent(id, db.contents[id])
  }

  ghost function Owned(db: Db, slug: GoString, owner: string): Result<Content, Error> {
    match Load(db, slug)
    case Err(e) => Err(e)
    case Ok(c) => if c.owner != owner then Err(NotFound) else Ok(c)
  }

  // ----- The encryption change ------------------------------------------------------------------------------

  /** The passphrase check in front of every operation that needs the current key. */
  function UnwrapFor(env: Envelope, passphrase: string, slug: GoString): Result<Dek, Error> {
    if passphrase == "" then Err(PassphraseRequired) else Unwrap(env, passphrase, slug)
  }

  predicate Decodable(db: Db, id: nat, slug: GoString, key: Option<Dek>) {
    forall f | f in Rows(db, id) :: Decode(key, slug, db.files[f].path, db.files[f].data).Some?
  }

  /** Every payload of the entry moved from one key to another, keyed by file row. */
  function Reencoded(db: Db, id: nat, slug: GoString, oldKey: Option<Dek>, newKey: Option<Dek>,
                     draw: Draw): map<nat, Blob>
    requires Decodable(db, id, slug, oldKey)
  {
    map f | f in Rows(db, id) ::
      var row := db.files[f];
      Encode(newKey, slug, row.path, Decode(oldKey, slug, row.path, row.data).value, draw.fileNonce(f))
  }

  /** The writes of a change, the envelope the entry ends up with, and the key new files are sealed with. */
  datatype Change = Change(writes: seq<Write>, encryption: Option<Envelope>, key: Option<Dek>)

  /** Changes the entry's envelope together with all its payloads, or with none when they are to be replaced. */
  predicate IsSwap(db: Db, w: Write, id: nat, replacing: bool) {
    w.SwapEncryption? && w.id == id && if replacing then w.rewritten == map[] else w.rewritten.Keys == Rows(db, id)
  }

  /** The transaction that moves an entry to a new envelope; files about to be replaced are left alone. */
  function SwapTo(db: Db, c: Content, oldKey: Option<Dek>, env: Option<Envelope>, newKey: Option<Dek>,
                  replacing: bool, draw: Draw): (r: Result<Change, Error>)
    ensures r.Ok? ==> |r.value.writes| == 1 && IsSwap(db, r.value.writes[0], c.id, replacing)
  {
    if replacing then Ok(Change([SwapEncryption(c.id, env, map[])], env, newKey))
    else if Decodable(db, c.id, c.slug, oldKey) then
      Ok(Change([SwapEncryption(c.id, env, Reencoded(db, c.id, c.slug, oldKey, newKey, draw))], env, newKey))
    else Err(Corrupted)
  }

  function Encrypt(db: Db, c: Content, passphrase: string, replacing: bool, draw: Draw): Result<Change, Error> {
    match NewEnvelope(passphrase, c.slug, draw)
    case Err(e) => Err(e)
    case Ok((env, dek)) => SwapTo(db, c, None, Some(env), Some(dek), replacing, draw)
  }

  function Decrypt(db: Db, c: Content, env: Envelope, passphrase: string, replacing: bool,
                   draw: Draw): Result<Change, Error> {
    match UnwrapFor(env, passphrase, c.slug)
    case Err(e) => Err(e)
    case Ok(dek) => SwapTo(db, c, Some(dek), None, None, replacing, draw)
  }

  function Rotate(db: Db, c: Content, env: Envelope, current: string, next: string, replacing: bool,
                  draw: Draw): Result<Change, Error> {
    match UnwrapFor(env, current, c.slug)
    case Err(e) => Err(e)
    case Ok(oldDek) =>
      match NewEnvelope(next, c.slug, draw)
      case Err(e) => Err(e)
      case Ok((newEnv, newDek)) => SwapTo(db, c, Some(oldDek), Some(newEnv), Some(newDek), replacing, draw)
  }

  function EncryptionChange(db: Db, c: Content, p: UpdateParams, draw: Draw): (r: Result<Change, Error>)
    ensures r.Ok? && r.value.writes != [] ==> |r.value.writes| == 1 && IsSwap(db, r.value.writes[0], c.id, p.Replaces())
  {
    match c.encryption
    case None =>
      if p.removeEncryption || p.newPassphrase != "" then Err(NotEncrypted)
      else if p.passphrase != "" then Encrypt(db, c, p.passphrase, p.Replaces(), draw)
      else Ok(Change([], None, None))
    case Some(env) =>
      if p.removeEncryption then Decrypt(db, c, env, p.passphrase, p.Replaces(), draw)
      else if p.newPassphrase != "" then Rotate(db, c, env, p.passphrase, p.newPassphrase, p.Replaces(), draw)
      else if p.Replaces() then
        (match UnwrapFor(env, p.passphrase, c.slug)
         case Err(e) => Err(e)
         case Ok(dek) => Ok(Change([], Some(env), Some(dek))))
      else Ok(Change([], Some(env), None))
  }

  // ----- Plans --------------------------------------------------------------------------------------------------

  datatype Plan = Plan(writes: seq<Write>, verdict: Result<Content, Error>)

  function NewRow(id: nat, slug: GoString, key: Option<Dek>, file: NewFile, nonce: seq<Byte>): FileRow {
    FileRow(id, file.path, Encode(key, slug, file.path, Bytes(file.data), nonce), file.contentType)
  }

  /** One insert per file; the first takes file row id `first`. */
  function Inserts(id: nat, slug: GoString, key: Option<Dek>, files: seq<NewFile>, first: nat,
                   draw: Draw): (ws: seq<Write>)
    ensures |ws| == |files|
  {
    seq(|files|, i requires 0 <= i < |files| => InsertFile(NewRow(id, slug, key, files[i], draw.fileNonce(first + i))))
  }

  function MetadataWrite(c: Content): Write {
    SetMetadata(c.id, c.title, c.sourceUrl, c.creator, c.allowExternal)
  }

  /** The part of an update that follows the encryption change. */
  function ChangeWrites(c: Content, p: UpdateParams, key: Option<Dek>, first: nat, draw: Draw): seq<Write> {
    [MetadataWrite(c)] +
    if p.Replaces()
    then [RemoveFiles(c.id)] + Inserts(c.id, c.slug, key, UploadedFiles(p.upload).files, first, draw) else []
  }

  /** An update of an entry that was found and is the caller's. */
  function ChangePlan(db: Db, c: Content, p: UpdateParams, draw: Draw): Plan {
    match EncryptionChange(db, c, p, draw)
    case Err(e) => Plan([], Err(e))
    case Ok(change) =>
      var c' := c.(encryption := change.encryption);
      Plan(change.writes + ChangeWrites(c', p, change.key, db.nextFile, draw),
           if p.Replaces() && !UploadedFiles(p.upload).complete then Err(BadArchive) else Ok(c'))
  }

  ghost function UpdatePlan(db: Db, p: UpdateParams, draw: Draw): Plan {
    match Owned(db, p.slug, p.owner)
    case Err(e) => Plan([], Err(e))
    case Ok(found) => ChangePlan(db, WithMetadata(found, p), p, draw)
  }

  function NewContent(p: CreateParams, id: nat, draw: Draw): Content {
    Content(id, p.slug, p.owner, OrElse(p.title, p.slug), TrimSpace(p.sourceUrl), OrElse(p.creator, p.owner),
            p.allowExternal,
            if p.passphrase == "" then None else Some(WrapKey(draw.dek, p.passphrase, p.slug, draw)))
  }

  function NewKey(p: CreateParams, draw: Draw): Option<Dek> {
    if p.passphrase == "" then None else Some(draw.dek)
  }

  /** The part of a creation that follows the entry's own row; an entry whose files are not all stored is taken out. */
  function FillWrites(c: Content, upload: Upload, key: Option<Dek>, first: nat, draw: Draw): seq<Write> {
    var files := UploadedFiles(upload);
    Inserts(c.id, c.slug, key, files.files, first, draw) + if files.complete then [] else [RemoveContent(c.id)]
  }

  function CreationPlan(db: Db, p: CreateParams, draw: Draw): Plan {
    var c := NewContent(p, db.nextContent, draw);
    Plan([InsertContent(RowOf(c))] + FillWrites(c, p.upload, NewKey(p, draw), db.nextFile, draw),
         if UploadedFiles(p.upload).complete then Ok(c) else Err(BadArchive))
  }

  function CreatePlan(db: Db, p: CreateParams, draw: Draw): Plan {
    if !Paths.ValidSlug(p.slug) then Plan([], Err(InvalidSlug))
    else if Ids(db, p.slug) != {} then Plan([], Err(SlugExists))
    else CreationPlan(db, p, draw)
  }

  ghost function DeletePlan(db: Db, slug: GoString, owner: string): Plan {
    match Owned(db, slug, owner)
    case Err(e) => Plan([], Err(e))
    case Ok(c) => Plan([RemoveContent(c.id)], Ok(c))
  }

  // ----- Reading ------------------------------------------------------------------------------------------------

  datatype Answer =
    | Served(data: Blob, contentType: string, allowExternal: bool, encrypted: bool)
    | Refused(error: Error)

  /** Verifies a visitor's passphrase and returns the data key. */
  ghost function UnlockResult(db: Db, slug: GoString, passphrase: string): Result<Dek, Error> {
    match Load(db, slug)
    case Err(e) => Err(e)
    case Ok(c) =>
      if c.encryption.None? then Err(NotEncrypted)
      else if passphrase == "" then Err(PassphraseRequired)
      else Unwrap(c.encryption.value, passphrase, slug)
  }

  /** What the visitor gets for one row the join selected. An empty dek is no key. */
  function AnswerFor(row: (FileRow, bool, bool), slug: GoString, path: GoString, dek: seq<Byte>): Answer {
    var (file, allowExternal, encrypted) := row;
    if !encrypted then Served(file.data, file.contentType, allowExternal, false)
    else if dek == [] then Refused(PassphraseRequired)
    else
      match Open(DataKey(dek), FileAad(slug, path), file.data)
      case None => Refused(Corrupted)
      case Some(plain) => Served(plain, file.contentType, allowExternal, true)
  }

  ghost function MissingAnswer(db: Db, slug: GoString, dek: seq<Byte>): Answer {
    if dek != [] then Refused(NotFound)
    else
      match Load(db, slug)
      case Err(e) => Refused(e)
      case Ok(c) => Refused(if c.encryption.Some? then PassphraseRequired else NotFound)
  }

  /** Everything a read may answer: one answer for each row with that path, or one answer when there is none. */
  ghost function Answers(db: Db, slug: GoString, path: GoString, dek: seq<Byte>): set<Answer> {
    if Paths.Contains(path, "..") then {Refused(InvalidFilePath)}
    else if Hits(db, slug, path) == {} then {MissingAnswer(db, slug, dek)}
    else set f | f in Hits(db, slug, path) :: AnswerFor(Joined(db, f), slug, path, dek)
  }
}
