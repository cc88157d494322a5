/**
 * The store as its users see it: entries with plaintext files and an optional passphrase. No keys, no
 * envelopes, no ciphertexts and no order of statements.
 */
module PlainStore {
  import opened Wrappers
  import opened ByteStrings
  import opened Sealing
  import opened Requests
  import Paths

  datatype File = File(path: GoString, contentType: string, bytes: seq<Byte>)

  datatype Entry = Entry(
    slug: GoString, owner: string, title: string, sourceUrl: string, creator: string, allowExternal: bool,
    passphrase: Option<string>, files: map<nat, File>)

  datatype Store = Store(entries: map<nat, Entry>, nextEntry: nat, nextFile: nat)

  function Named(s: Store, slug: GoString): set<nat> {
    set id | id in s.entries && s.entries[id].slug == slug
  }

  ghost function Owned(s: Store, slug: GoString, owner: string): (r: Result<nat, Error>)
    ensures r.Ok? ==> r.value in Named(s, slug)
  {
    if Named(s, slug) == {} then Err(NotFound)
    else
      var id :| id in Named(s, slug);
      if s.entries[id].owner != owner then Err(NotFound) else Ok(id)
  }

  /** The first k uploaded files, numbered from `first` on. */
  function Numbered(files: seq<NewFile>, first: nat, k: nat): map<nat, File>
    requires k <= |files|
  {
    if k == 0 then map[]
    else
      var file := files[k - 1];
      Numbered(files, first, k - 1)[first + k - 1 := File(file.path, file.contentType, file.data)]
  }

  /** The store with one more file in an entry. */
  function AddFile(s: Store, id: nat, file: NewFile): Store
    requires id in s.entries
  {
    var e := s.entries[id];
    s.(entries := s.entries[id := e.(files := e.files[s.nextFile := File(file.path, file.contentType, file.data)])],
       nextFile := s.nextFile + 1)
  }

  ghost function AddFiles(s: Store, id: nat, files: seq<NewFile>, k: nat): (s': Store)
    requires id in s.entries && k <= |files|
    ensures id in s'.entries
  {
    if k == 0 then s else AddFile(AddFiles(s, id, files, k - 1), id, files[k - 1])
  }

  /** Filling an empty entry file by file gives it the numbered files. */
  lemma {:induction false} AddFilesFills(s: Store, id: nat, files: seq<NewFile>, k: nat)
    requires id in s.entries && s.entries[id].files == map[] && k <= |files|
    ensures AddFiles(s, id, files, k) ==
            s.(entries := s.entries[id := s.entries[id].(files := Numbered(files, s.nextFile, k))],
               nextFile := s.nextFile + k)
  {
    if k > 0 {
      AddFilesFills(s, id, files, k - 1);
    }
  }

  function Unpacked(u: Upload, first: nat): map<nat, File> {
    Numbered(UploadedFiles(u).files, first, |UploadedFiles(u).files|)
  }

  function NewEntry(p: CreateParams, files: map<nat, File>): Entry {
    Entry(p.slug, p.owner, OrElse(p.title, p.slug), TrimSpace(p.sourceUrl), OrElse(p.creator, p.owner), p.allowExternal,
          if p.passphrase == "" then None else Some(p.passphrase), files)
  }

  function Create(s: Store, p: CreateParams): (Store, Result<nat, Error>) {
    if !Paths.ValidSlug(p.slug) then (s, Err(InvalidSlug))
    else if Named(s, p.slug) != {} then (s, Err(SlugExists))
    else
      var stored := UploadedFiles(p.upload);
      var s' := s.(nextEntry := s.nextEntry + 1, nextFile := s.nextFile + |stored.files|);
      if !stored.complete then (s', Err(BadArchive))
      else
        (s'.(entries := s.entries[s.nextEntry := NewEntry(p, Unpacked(p.upload, s.nextFile))]), Ok(s.nextEntry))
  }

  /**
   * Public entries refuse requests about a passphrase they do not have; private ones ask for theirs when it is needed.
   */
  function Refusal(e: Entry, p: UpdateParams): Option<Error> {
    if e.passphrase.None? then
      if p.removeEncryption || p.newPassphrase != "" then Some(NotEncrypted) else None
    else if !p.removeEncryption && p.newPassphrase == "" && !p.Replaces() then None
    else if p.passphrase == "" then Some(PassphraseRequired)
    else if Some(p.passphrase) != e.passphrase then Some(WrongPassphrase)
    else None
  }

  function NextPassphrase(e: Entry, p: UpdateParams): Option<string> {
    if e.passphrase.None? then if p.passphrase == "" then None else Some(p.passphrase)
    else if p.removeEncryption then None
    else if p.newPassphrase != "" then Some(p.newPassphrase)
    else e.passphrase
  }

  function Changed(e: Entry, p: UpdateParams, first: nat): Entry {
    e.(title := Trimmed(p.title, e.title), sourceUrl := Trimmed(p.sourceUrl, e.sourceUrl),
       creator := Trimmed(p.creator, e.creator),
       allowExternal := if p.allowExternal.Some? then p.allowExternal.value else e.allowExternal,
       passphrase := NextPassphrase(e, p),
       files := if p.Replaces() then Unpacked(p.upload, first) else e.files)
  }

  ghost function Update(s: Store, p: UpdateParams): (Store, Result<nat, Error>) {
    match Owned(s, p.slug, p.owner)
    case Err(e) => (s, Err(e))
    case Ok(id) =>
      match Refusal(s.entries[id], p)
      case Some(e) => (s, Err(e))
      case None =>
        (s.(entries := s.entries[id := Changed(s.entries[id], p, s.nextFile)],
            nextFile := s.nextFile + if p.Replaces() then |UploadedFiles(p.upload).files| else 0),
         if p.Replaces() && !UploadedFiles(p.upload).complete then Err(BadArchive) else Ok(id))
  }

  ghost function Delete(s: Store, slug: GoString, owner: string): (Store, Result<nat, Error>) {
    match Owned(s, slug, owner)
    case Err(e) => (s, Err(e))
    case Ok(id) => (s.(entries := s.entries - {id}), Ok(id))
  }

  /** Why a visitor's passphrase is turned down. */
  ghost function Unlock(s: Store, slug: GoString, passphrase: string): Option<Error> {
    if Named(s, slug) == {} then Some(NotFound)
    else
      var id :| id in Named(s, slug);
      if s.entries[id].passphrase.None? then Some(NotEncrypted)
      else if passphrase == "" then Some(PassphraseRequired)
      else if s.entries[id].passphrase != Some(passphrase) then Some(WrongPassphrase)
      else None
  }

  /** What a visitor with a passphrase gets for a path: any of the files stored under it. */
  ghost function Visit(s: Store, slug: GoString, passphrase: string, path: GoString): set<Answer> {
    if Paths.Contains(path, "..") then {Refused(InvalidFilePath)}
    else if Named(s, slug) == {} then {Refused(NotFound)}
    else
      var id :| id in Named(s, slug);
      var e := s.entries[id];
      var found := set f | f in e.files && e.files[f].path == path;
      if e.passphrase.Some? && e.passphrase != Some(passphrase) then {Refused(PassphraseRequired)}
      else if found == {} then {Refused(NotFound)}
      else set f | f in found ::
             Served(Bytes(e.files[f].bytes), e.files[f].contentType, e.allowExternal, e.passphrase.Some?)
  }
}
