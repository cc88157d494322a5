/**
 * The encrypted store refines the plain one: forgetting keys and ciphertexts turns every request that runs to
 * its end, and every read, into the corresponding operation of the plain store.
 */
module Refinement {
  import opened Wrappers
  import opened ByteStrings
  import opened Sealing
  import opened Store
  import opened Requests
  import opened Invariants
  import opened Runs
  import opened Crashes
  import opened Readers
  import P = PlainStore
  import Paths

  // ----- The abstraction --------------------------------------------------------------------------------

  function PlainFiles(db: Db, id: nat): map<nat, P.File>
    requires id in db.contents
  {
    map f | f in Rows(db, id) ::
      P.File(db.files[f].path, db.files[f].contentType, PlaintextOf(db.contents[id], db.files[f]))
  }

  function PlainEntry(db: Db, id: nat): P.Entry
    requires id in db.contents
  {
    var row := db.contents[id];
    P.Entry(row.slug, row.owner, row.title, row.sourceUrl, row.creator, row.allowExternal, PassphraseOf(row),
            PlainFiles(db, id))
  }

  function Plain(db: Db): P.Store {
    P.Store(map id | id in db.contents :: PlainEntry(db, id), db.nextContent, db.nextFile)
  }

  /** The answer of a request shows the entry as the plain store has it. */
  predicate Shows(c: Content, e: P.Entry) {
    && c.slug == e.slug && c.owner == e.owner && c.title == e.title && c.sourceUrl == e.sourceUrl
    && c.creator == e.creator && c.allowExternal == e.allowExternal && c.encryption.Some? == e.passphrase.Some?
  }

  ghost predicate SameVerdict(verdict: Result<Content, Error>, r: Result<nat, Error>, s: P.Store) {
    match (verdict, r)
    case (Err(e), Err(e')) => e == e'
    case (Ok(c), Ok(id)) => c.id == id && id in s.entries && Shows(c, s.entries[id])
    case _ => false
  }

  lemma NamedIsIds(db: Db, slug: GoString)
    ensures P.Named(Plain(db), slug) == Ids(db, slug)
  {
  }

  lemma OwnedAgrees(db: Db, slug: GoString, owner: string)
    requires WellFormed(db)
    ensures var r := P.Owned(Plain(db), slug, owner);
            match Owned(db, slug, owner)
            case Err(e) => r == Err(e)
            case Ok(c) => r == Ok(c.id) && c.id in Ids(db, slug) && Shows(c, PlainEntry(db, c.id)) && Stands(db, c)
  {
    NamedIsIds(db, slug);
    LoadMisses(db, slug);
    if Ids(db, slug) != {} {
      var id :| id in Ids(db, slug);
      LoadFinds(db, slug, id);
      EncryptedReadingsAgree(id, db.contents[id]);
    }
  }

  /** An entry is determined by its row and its file rows. */
  lemma SameRowsSameEntry(db: Db, db': Db, id: nat)
    requires SameRows(db, db', id)
    ensures PlainEntry(db', id) == PlainEntry(db, id)
  {
  }

  /** When all other entries keep their rows, the plain stores differ in one entry. */
  lemma OneEntryChanges(db: Db, db': Db, id: nat)
    requires db'.contents.Keys == db.contents.Keys + {id}
    requires forall id' :: id' in db.contents && id' != id ==> SameRows(db, db', id')
    ensures Plain(db') == P.Store(Plain(db).entries[id := PlainEntry(db', id)], db'.nextContent, db'.nextFile)
  {
    forall id' | id' in db.contents && id' != id
      ensures PlainEntry(db', id') == PlainEntry(db, id')
    {
      SameRowsSameEntry(db, db', id');
    }
  }

  // ----- Inserting files ------------------------------------------------------------------------------------

  /** A file sealed with the entry's key appears as its plaintext. */
  lemma NewFileIsPlain(db: Db, id: nat, file: NewFile, nonce: seq<Byte>)
    requires Constrained(db) && id in db.contents
    ensures var db' := Effect(db, InsertFile(NewRow(id, db.contents[id].slug, KeyOf(db.contents[id]), file, nonce)));
            && PlainFiles(db', id) == PlainFiles(db, id)[db.nextFile := P.File(file.path, file.contentType, file.data)]
  {
    var db' := Effect(db, InsertFile(NewRow(id, db.contents[id].slug, KeyOf(db.contents[id]), file, nonce)));
    assert PlaintextOf(db.contents[id], db'.files[db.nextFile]) == file.data;
    assert Rows(db', id) == Rows(db, id) + {db.nextFile};
  }

  lemma InsertIsPlain(db: Db, id: nat, file: NewFile, nonce: seq<Byte>)
    requires Constrained(db) && id in db.contents
    ensures var w := InsertFile(NewRow(id, db.contents[id].slug, KeyOf(db.contents[id]), file, nonce));
            Plain(Effect(db, w)) == P.AddFile(Plain(db), id, file)
  {
    NewFileIsPlain(db, id, file, nonce);
    var db' := Effect(db, InsertFile(NewRow(id, db.contents[id].slug, KeyOf(db.contents[id]), file, nonce)));
    forall id' | id' in db.contents && id' != id
      ensures SameRows(db, db', id')
    {
      assert Rows(db', id') == Rows(db, id');
    }
    OneEntryChanges(db, db', id);
  }

  lemma {:induction false} InsertsAreRegular(db: Db, ws: seq<Write>, id: nat, k: nat)
    requires Constrained(db) && id in db.contents && k <= |ws|
    requires forall i :: 0 <= i < |ws| ==> ws[i].InsertFile? && ws[i].file.contentId == id
    ensures var db' := At(db, ws, k);
            && Constrained(db') && db'.contents == db.contents && db'.nextContent == db.nextContent
            && db'.nextFile == db.nextFile + k
  {
    if k > 0 {
      InsertsAreRegular(db, ws, id, k - 1);
      EffectKeepsConstraints(At(db, ws, k - 1), ws[k - 1]);
    }
  }

  lemma {:induction false} InsertsArePlain(db: Db, ws: seq<Write>, id: nat, files: seq<NewFile>, draw: Draw, k: nat)
    requires Constrained(db) && id in db.contents && k <= |files| == |ws|
    requires forall i :: 0 <= i < |ws| ==> InsertOf(ws[i], db, id, files[i], draw.fileNonce(db.nextFile + i))
    ensures id in Plain(At(db, ws, k)).entries && Plain(At(db, ws, k)) == P.AddFiles(Plain(db), id, files, k)
  {
    if k > 0 {
      InsertsAreRegular(db, ws, id, k - 1);
      assert InsertOf(ws[k - 1], At(db, ws, k - 1), id, files[k - 1], draw.fileNonce(db.nextFile + k - 1));
      hide Effect, InsertOf, NewRow, P.AddFile;
      InsertsArePlain(db, ws, id, files, draw, k - 1);
      NextInsertIsPlain(At(db, ws, k - 1), ws[k - 1], id, files[k - 1], draw.fileNonce(db.nextFile + k - 1),
                        P.AddFiles(Plain(db), id, files, k - 1));
    }
  }

  /** The write stores the file sealed with the entry's key. */
  predicate InsertOf(w: Write, db: Db, id: nat, file: NewFile, nonce: seq<Byte>) {
    id in db.contents && w == InsertFile(NewRow(id, db.contents[id].slug, KeyOf(db.contents[id]), file, nonce))
  }

  lemma NextInsertIsPlain(db: Db, w: Write, id: nat, file: NewFile, nonce: seq<Byte>, s: P.Store)
    requires Constrained(db) && id in db.contents && Plain(db) == s
    requires InsertOf(w, db, id, file, nonce)
    ensures id in s.entries && Plain(Effect(db, w)) == P.AddFile(s, id, file)
  {
    InsertIsPlain(db, id, file, nonce);
  }

  // ----- Updates -------------------------------------------------------------------------------------------------

  /** Nothing but one entry differs. */
  predicate OthersSame(s: P.Store, s': P.Store, id: nat) {
    && s'.nextEntry == s.nextEntry && s'.entries.Keys == s.entries.Keys
    && forall id' :: id' in s.entries && id' != id ==> s'.entries[id'] == s.entries[id']
  }

  /** The re-encoding transaction changes the passphrase; the plaintexts stay unless the files are about to go. */
  lemma SwapIsPlain(db: Db, id: nat, env: Option<Envelope>, rewritten: map<nat, Blob>, who: string, dek: Dek)
    requires WellFormed(db) && SwapPermitted(db, id, env, rewritten, who, dek)
    ensures var w := SwapEncryption(id, env, rewritten);
            var s, s' := Plain(db), Plain(Effect(db, w));
            && OthersSame(s, s', id) && s'.nextFile == s.nextFile
            && s'.entries[id] ==
               s.entries[id].(passphrase := PassphraseOf(WithColumns(db.contents[id], env)),
                              files := s'.entries[id].files)
            && (rewritten.Keys == Rows(db, id) ==> s'.entries[id].files == s.entries[id].files)
  {
    var db' := Effect(db, SwapEncryption(id, env, rewritten));
    assert db'.contents[id] == WithColumns(db.contents[id], env);
    SwapSparesOthers(db, id, env, rewritten);
    hide Effect, SwapPermitted, WellFormed, PlainFiles, PassphraseOf;
    OneEntryChanges(db, db', id);
    if rewritten.Keys == Rows(db, id) {
      SwapKeepsPlaintexts(db, id, env, rewritten, who, dek);
    }
  }

  lemma SwapSparesOthers(db: Db, id: nat, env: Option<Envelope>, rewritten: map<nat, Blob>)
    requires id in db.contents
    ensures var db' := Effect(db, SwapEncryption(id, env, rewritten));
            && db'.contents.Keys == db.contents.Keys
            && forall id' :: id' in db.contents && id' != id ==> SameRows(db, db', id')
  {
    var db' := Effect(db, SwapEncryption(id, env, rewritten));
    forall id' | id' in db.contents && id' != id
      ensures SameRows(db, db', id')
    {
      assert Rows(db', id') == Rows(db, id');
    }
  }

  lemma SwapKeepsPlaintexts(db: Db, id: nat, env: Option<Envelope>, rewritten: map<nat, Blob>, who: string, dek: Dek)
    requires WellFormed(db) && SwapPermitted(db, id, env, rewritten, who, dek) && rewritten.Keys == Rows(db, id)
    ensures PlainFiles(Effect(db, SwapEncryption(id, env, rewritten)), id) == PlainFiles(db, id)
  {
    var db' := Effect(db, SwapEncryption(id, env, rewritten));
    assert Rows(db', id) == Rows(db, id);
    forall f | f in Rows(db, id)
      ensures PlaintextOf(db'.contents[id], db'.files[f]) == PlaintextOf(db.contents[id], db.files[f])
    {
      assert Recoded(KeyOf(db.contents[id]), KeyOf(db'.contents[id]), db.contents[id].slug, db.files[f], rewritten[f]);
    }
  }

  /** Whether a change is refused, and the passphrase it leads to, as the plain store decides it. */
  lemma ChangeDecision(db: Db, c: Content, p: UpdateParams, draw: Draw)
    requires WellFormed(db) && Consistent(db, c.id) && Stands(db, c)
    ensures var e := PlainEntry(db, c.id);
            match EncryptionChange(db, c, p, draw)
            case Err(error) => P.Refusal(e, p) == Some(error)
            case Ok(change) =>
              && P.Refusal(e, p).None? && change.encryption.Some? == P.NextPassphrase(e, p).Some?
              && (change.writes == [] ==> P.NextPassphrase(e, p) == e.passphrase)
              && (change.writes != [] ==>
                    P.NextPassphrase(e, p) == PassphraseOf(WithColumns(db.contents[c.id], change.encryption)))
  {
    var row := db.contents[c.id];
    EncryptedReadingsAgree(c.id, row);
    PayloadsDecodable(db, c);
    if c.encryption.Some? {
      UnwrapForEntry(row, p.passphrase);
    }
    var next := if c.encryption.None? then p.passphrase else p.newPassphrase;
    if next != "" {
      NewEnvelopeSound(row, next, draw);
    }
  }

  lemma PayloadsDecodable(db: Db, c: Content)
    requires Consistent(db, c.id) && Stands(db, c)
    ensures Decodable(db, c.id, c.slug, KeyOf(db.contents[c.id]))
  {
    forall f | f in Rows(db, c.id)
      ensures Decode(KeyOf(db.contents[c.id]), c.slug, db.files[f].path, db.files[f].data).Some?
    {
      assert Agrees(db.contents[c.id], db.files[f]);
    }
  }

  lemma MetadataIsPlain(db: Db, c: Content)
    requires c.id in db.contents
    ensures var e := Plain(db).entries[c.id];
            Plain(Effect(db, MetadataWrite(c))) ==
            Plain(db).(entries := Plain(db).entries[c.id := e.(title := c.title, sourceUrl := c.sourceUrl,
                                                               creator := c.creator, allowExternal := c.allowExternal)])
  {
    var db' := Effect(db, MetadataWrite(c));
    forall id' | id' in db.contents && id' != c.id
      ensures SameRows(db, db', id')
    {
      assert Rows(db', id') == Rows(db, id');
    }
    OneEntryChanges(db, db', c.id);
    assert PlainFiles(db', c.id) == PlainFiles(db, c.id);
  }

  lemma RemovalIsPlain(db: Db, id: nat)
    requires id in db.contents
    ensures Plain(Effect(db, RemoveFiles(id))) ==
            Plain(db).(entries := Plain(db).entries[id := Plain(db).entries[id].(files := map[])])
  {
    var db' := Effect(db, RemoveFiles(id));
    forall id' | id' in db.contents && id' != id
      ensures SameRows(db, db', id')
    {
      assert Rows(db', id') == Rows(db, id');
    }
    OneEntryChanges(db, db', id);
    assert PlainFiles(db', id) == map[];
  }

  /** The entry with the metadata of c, and with new files if the request brings some. */
  function Written(e: P.Entry, c: Content, p: UpdateParams, first: nat): P.Entry {
    Described(e, c).(files := if p.Replaces() then P.Unpacked(p.upload, first) else e.files)
  }

  function FilesStored(p: UpdateParams): nat {
    if p.Replaces() then |UploadedFiles(p.upload).files| else 0
  }

  /** The part of an update that follows the encryption change, whatever the old files were. */
  lemma TailIsPlain(db: Db, c: Content, p: UpdateParams, key: Option<Dek>, draw: Draw)
    requires Constrained(db) && c.id in db.contents && c.slug == db.contents[c.id].slug
    requires p.Replaces() ==> key == KeyOf(db.contents[c.id])
    ensures var s := Plain(db);
            Plain(After(db, ChangeWrites(c, p, key, db.nextFile, draw))) ==
            P.Store(s.entries[c.id := Written(s.entries[c.id], c, p, s.nextFile)], s.nextEntry,
                    s.nextFile + FilesStored(p))
  {
    hide Plain, Effect, Inserts, UploadedFiles, At;
    if p.Replaces() {
      ReplacementIsPlain(db, c, p.upload, key, draw);
    } else {
      assert ChangeWrites(c, p, key, db.nextFile, draw) == [MetadataWrite(c)];
      MetadataAloneIsPlain(db, c);
    }
  }

  /** The entry with the metadata of c. */
  function Described(e: P.Entry, c: Content): P.Entry {
    e.(title := c.title, sourceUrl := c.sourceUrl, creator := c.creator, allowExternal := c.allowExternal)
  }

  lemma MetadataAloneIsPlain(db: Db, c: Content)
    requires c.id in db.contents
    ensures var s := Plain(db);
            Plain(After(db, [MetadataWrite(c)])) ==
            P.Store(s.entries[c.id := Described(s.entries[c.id], c)], s.nextEntry, s.nextFile)
  {
    OneWrite(db, MetadataWrite(c));
    MetadataIsPlain(db, c);
    hide Effect, PlainEntry;
  }

  lemma ReplacementIsPlain(db: Db, c: Content, upload: Upload, key: Option<Dek>, draw: Draw)
    requires Constrained(db) && c.id in db.contents && c.slug == db.contents[c.id].slug
    requires key == KeyOf(db.contents[c.id])
    ensures var s, files := Plain(db), UploadedFiles(upload).files;
            var inserts := Inserts(c.id, c.slug, key, files, db.nextFile, draw);
            Plain(After(db, [MetadataWrite(c)] + ([RemoveFiles(c.id)] + inserts))) ==
            P.Store(s.entries[c.id := Described(s.entries[c.id], c).(files := P.Unpacked(upload, s.nextFile))],
                    s.nextEntry, s.nextFile + |files|)
  {
    var e := Plain(db).entries[c.id];
    hide Effect, Plain, UploadedFiles, MetadataWrite, P.Unpacked, Inserts, At, Constrained, KeyOf, Described;
    TwoThenRest(db, MetadataWrite(c), RemoveFiles(c.id),
                Inserts(c.id, c.slug, key, UploadedFiles(upload).files, db.nextFile, draw));
    HeadIsRegular(db, c);
    HeadIsPlain(db, c);
    RefillIsPlain(Plain(db), After(db, [MetadataWrite(c), RemoveFiles(c.id)]), c.id, Described(e, c), upload, key,
                  draw);
  }

  /** Storing an upload in an entry that was just emptied. */
  lemma RefillIsPlain(s: P.Store, db: Db, id: nat, e: P.Entry, upload: Upload, key: Option<Dek>, draw: Draw)
    requires Constrained(db) && id in db.contents && key == KeyOf(db.contents[id])
    requires Plain(db) == s.(entries := s.entries[id := e.(files := map[])])
    ensures var files, slug := UploadedFiles(upload).files, db.contents[id].slug;
            Plain(After(db, Inserts(id, slug, key, files, db.nextFile, draw))) ==
            P.Store(s.entries[id := e.(files := P.Unpacked(upload, s.nextFile))], s.nextEntry, s.nextFile + |files|)
  {
    hide Plain, UploadedFiles, P.Unpacked, Inserts, At, Constrained, KeyOf;
    FillingIsPlain(db, id, upload, key, draw);
  }

  lemma TwoThenRest(db: Db, v: Write, w: Write, rest: seq<Write>)
    ensures After(db, [v] + ([w] + rest)) == After(After(db, [v, w]), rest)
  {
    assert [v] + ([w] + rest) == [v, w] + rest;
    AtConcat(db, [v, w], rest, |rest|);
  }

  lemma HeadIsRegular(db: Db, c: Content)
    requires Constrained(db) && c.id in db.contents
    ensures var db' := After(db, [MetadataWrite(c), RemoveFiles(c.id)]);
            && Constrained(db') && c.id in db'.contents && db'.nextFile == db.nextFile
            && db'.contents[c.id].slug == db.contents[c.id].slug
            && KeyOf(db'.contents[c.id]) == KeyOf(db.contents[c.id])
  {
    var db1 := Effect(db, MetadataWrite(c));
    TwoWrites(db, MetadataWrite(c), RemoveFiles(c.id));
    EffectKeepsConstraints(db, MetadataWrite(c));
    EffectKeepsConstraints(db1, RemoveFiles(c.id));
    hide Constrained, Without;
  }

  lemma HeadIsPlain(db: Db, c: Content)
    requires c.id in db.contents
    ensures var s := Plain(db);
            Plain(After(db, [MetadataWrite(c), RemoveFiles(c.id)])) ==
            s.(entries := s.entries[c.id := Described(s.entries[c.id], c).(files := map[])])
  {
    var db1 := Effect(db, MetadataWrite(c));
    assert c.id in db1.contents;
    hide Effect, PlainEntry, At;
    TwoWrites(db, MetadataWrite(c), RemoveFiles(c.id));
    MetadataIsPlain(db, c);
    RemovalIsPlain(db1, c.id);
  }

  /** Storing an upload in an entry without files. */
  lemma FillingIsPlain(db: Db, id: nat, upload: Upload, key: Option<Dek>, draw: Draw)
    requires Constrained(db) && id in db.contents && key == KeyOf(db.contents[id])
    requires Plain(db).entries[id].files == map[]
    ensures var files, slug, s := UploadedFiles(upload).files, db.contents[id].slug, Plain(db);
            Plain(After(db, Inserts(id, slug, key, files, db.nextFile, draw))) ==
            P.Store(s.entries[id := s.entries[id].(files := P.Unpacked(upload, s.nextFile))], s.nextEntry,
                    s.nextFile + |files|)
  {
    var files := UploadedFiles(upload).files;
    InsertsArePlain(db, Inserts(id, db.contents[id].slug, key, files, db.nextFile, draw), id, files, draw, |files|);
    P.AddFilesFills(Plain(db), id, files, |files|);
  }

  lemma TwoWrites(db: Db, v: Write, w: Write)
    ensures After(db, [v, w]) == Effect(Effect(db, v), w)
  {
    assert At(db, [v, w], 0) == db && At(db, [v, w], 1) == Effect(db, v);
  }

  /** The encryption change sets the passphrase, and keeps the plaintexts unless the files are about to go. */
  lemma ChangeIsPlain(db: Db, c: Content, p: UpdateParams, draw: Draw)
    requires WellFormed(db) && Consistent(db, c.id) && Stands(db, c) && EncryptionChange(db, c, p, draw).Ok?
    ensures var db' := After(db, EncryptionChange(db, c, p, draw).value.writes);
            var s, s' := Plain(db), Plain(db');
            && Constrained(db') && OthersSame(s, s', c.id) && s'.nextFile == s.nextFile
            && s'.entries[c.id] ==
               s.entries[c.id].(passphrase := P.NextPassphrase(s.entries[c.id], p), files := s'.entries[c.id].files)
            && (!p.Replaces() ==> s'.entries[c.id].files == s.entries[c.id].files)
  {
    var change := EncryptionChange(db, c, p, draw).value;
    ChangeDecision(db, c, p, draw);
    ChangePermitted(db, c, p, draw);
    if change.writes != [] {
      var w := change.writes[0];
      FirstPermitted(db, change.writes, c.owner, draw.dek);
      PermittedKeepsForm(db, w, c.owner, draw.dek);
      SwapIsPlain(db, c.id, w.env, w.rewritten, c.owner, draw.dek);
    }
  }

  lemma FirstPermitted(db: Db, ws: seq<Write>, who: string, dek: Dek)
    requires |ws| == 1 && PlanPermitted(db, ws, who, dek)
    ensures Permitted(db, ws[0], who, dek) && After(db, ws) == Effect(db, ws[0])
  {
    assert At(db, ws, 0) == db;
  }

  /** An envelope change and the writes after it, seen together: the old files do not matter when they are replaced. */
  lemma ChangeAndTail(s: P.Store, s1: P.Store, s2: P.Store, id: nat, passphrase: Option<string>, c: Content,
                      p: UpdateParams)
    requires id in s.entries && OthersSame(s, s1, id) && s1.nextFile == s.nextFile
    requires s1.entries[id] == s.entries[id].(passphrase := passphrase, files := s1.entries[id].files)
    requires !p.Replaces() ==> s1.entries[id].files == s.entries[id].files
    requires s2 ==
             P.Store(s1.entries[id := Written(s1.entries[id], c, p, s1.nextFile)], s1.nextEntry,
                     s1.nextFile + FilesStored(p))
    ensures s2 == P.Store(s.entries[id := Written(s.entries[id].(passphrase := passphrase), c, p, s.nextFile)],
                          s.nextEntry, s.nextFile + FilesStored(p))
  {
  }

  lemma ChangeThenTailIsPlain(db: Db, c: Content, p: UpdateParams, change: Change, passphrase: Option<string>,
                              draw: Draw)
    requires var db1 := After(db, change.writes);
             && Constrained(db1) && db1.nextFile == db.nextFile && c.id in db.contents && c.id in db1.contents
             && c.slug == db1.contents[c.id].slug && (p.Replaces() ==> change.key == KeyOf(db1.contents[c.id]))
             && var s, s1 := Plain(db), Plain(db1);
             && OthersSame(s, s1, c.id) && s1.nextFile == s.nextFile
             && s1.entries[c.id] == s.entries[c.id].(passphrase := passphrase, files := s1.entries[c.id].files)
             && (!p.Replaces() ==> s1.entries[c.id].files == s.entries[c.id].files)
    ensures var s := Plain(db);
            Plain(After(db, change.writes + ChangeWrites(c, p, change.key, db.nextFile, draw))) ==
            P.Store(s.entries[c.id := Written(s.entries[c.id].(passphrase := passphrase), c, p, s.nextFile)],
                    s.nextEntry, s.nextFile + FilesStored(p))
  {
    hide Effect, PlainEntry, ChangeWrites, UploadedFiles, Written, OthersSame;
    var db1 := After(db, change.writes);
    var tail := ChangeWrites(c, p, change.key, db.nextFile, draw);
    TailIsPlain(db1, c, p, change.key, draw);
    AtConcat(db, change.writes, tail, |tail|);
    ChangeAndTail(Plain(db), Plain(db1), Plain(After(db1, tail)), c.id, passphrase, c, p);
  }

  lemma ChangePlanIsPlain(db: Db, c: Content, p: UpdateParams, draw: Draw)
    requires WellFormed(db) && Consistent(db, c.id) && Stands(db, c) && EncryptionChange(db, c, p, draw).Ok?
    ensures var s := Plain(db);
            var e := s.entries[c.id];
            Plain(After(db, ChangePlan(db, c, p, draw).writes)) ==
            P.Store(s.entries[c.id := Written(e.(passphrase := P.NextPassphrase(e, p)), c, p, s.nextFile)],
                    s.nextEntry, s.nextFile + FilesStored(p))
  {
    hide EncryptionChange, Effect, PlainEntry, ChangeWrites, UploadedFiles;
    var change := EncryptionChange(db, c, p, draw).value;
    ChangeIsPlain(db, c, p, draw);
    ChangePermitted(db, c, p, draw);
    SwapKeepsIdentity(db, c, p, draw);
    ChangeThenTailIsPlain(db, c.(encryption := change.encryption), p, change,
                          P.NextPassphrase(Plain(db).entries[c.id], p), draw);
  }

  /** An update that runs to its end does to the plain store what the plain update does, and answers the same. */
  lemma UpdateRefines(db: Db, p: UpdateParams, draw: Draw)
    requires WellFormed(db) && SlugConsistent(db, p.slug)
    ensures var plan := UpdatePlan(db, p, draw);
            var (s', r) := P.Update(Plain(db), p);
            Plain(After(db, plan.writes)) == s' && SameVerdict(plan.verdict, r, s')
  {
    hide EncryptionChange, UploadedFiles, Effect, P.Refusal, P.NextPassphrase, Owned, P.Owned;
    OwnedAgrees(db, p.slug, p.owner);
    if Owned(db, p.slug, p.owner).Ok? {
      var c := WithMetadata(Owned(db, p.slug, p.owner).value, p);
      ChangeDecision(db, c, p, draw);
      if EncryptionChange(db, c, p, draw).Ok? {
        ChangePlanIsPlain(db, c, p, draw);
      }
    }
  }

  // ----- Creations and deletions ----------------------------------------------------------------------------

  lemma NewEntryIsPlain(db: Db, row: ContentRow)
    requires Constrained(db)
    ensures var s, e := Plain(db), P.Entry(row.slug, row.owner, row.title, row.sourceUrl, row.creator,
                                           row.allowExternal, PassphraseOf(row), map[]);
            Plain(Effect(db, InsertContent(row))) == P.Store(s.entries[s.nextEntry := e], s.nextEntry + 1, s.nextFile)
  {
    var db' := Effect(db, InsertContent(row));
    forall id' | id' in db.contents && id' != db.nextContent
      ensures SameRows(db, db', id')
    {
      assert Rows(db', id') == Rows(db, id');
    }
    OneEntryChanges(db, db', db.nextContent);
    assert PlainFiles(db', db.nextContent) == map[];
  }

  lemma DropSparesOthers(db: Db, id: nat, id': nat)
    requires id' in db.contents && id' != id
    ensures SameRows(db, Effect(db, RemoveContent(id)), id')
  {
    assert Rows(Effect(db, RemoveContent(id)), id') == Rows(db, id');
  }

  lemma DropIsPlain(db: Db, id: nat)
    ensures var s := Plain(db); Plain(Effect(db, RemoveContent(id))) == s.(entries := s.entries - {id})
  {
    hide PlainEntry;
    var db' := Effect(db, RemoveContent(id));
    forall id' | id' in db'.contents
      ensures PlainEntry(db', id') == PlainEntry(db, id')
    {
      DropSparesOthers(db, id, id');
      SameRowsSameEntry(db, db', id');
    }
  }

  lemma FillWritesArePlain(db: Db, c: Content, upload: Upload, key: Option<Dek>, draw: Draw)
    requires Constrained(db) && c.id in db.contents && db.contents[c.id].slug == c.slug
    requires key == KeyOf(db.contents[c.id]) && Plain(db).entries[c.id].files == map[]
    ensures var s, stored := Plain(db), UploadedFiles(upload);
            var e := s.entries[c.id].(files := P.Unpacked(upload, s.nextFile));
            Plain(After(db, FillWrites(c, upload, key, db.nextFile, draw))) ==
            P.Store(if stored.complete then s.entries[c.id := e] else s.entries - {c.id}, s.nextEntry,
                    s.nextFile + |stored.files|)
  {
    var inserts := Inserts(c.id, c.slug, key, UploadedFiles(upload).files, db.nextFile, draw);
    InsertsAreRegular(db, inserts, c.id, |inserts|);
    hide Effect, PlainEntry, UploadedFiles, P.Unpacked;
    FillingIsPlain(db, c.id, upload, key, draw);
    if UploadedFiles(upload).complete {
      assert FillWrites(c, upload, key, db.nextFile, draw) == inserts;
    } else {
      WithdrawnIsPlain(db, inserts, c.id);
      assert Plain(db).entries[c.id := Plain(After(db, inserts)).entries[c.id]] - {c.id} == Plain(db).entries - {c.id};
    }
  }

  /** Taking the entry out again. */
  lemma WithdrawnIsPlain(db: Db, ws: seq<Write>, id: nat)
    requires Constrained(After(db, ws))
    ensures var s := Plain(After(db, ws)); Plain(After(db, ws + [RemoveContent(id)])) == s.(entries := s.entries - {id})
  {
    AtConcat(db, ws, [RemoveContent(id)], 1);
    OneWrite(After(db, ws), RemoveContent(id));
    DropIsPlain(After(db, ws), id);
  }

  lemma CreateRefines(db: Db, p: CreateParams, draw: Draw)
    requires WellFormed(db)
    ensures var plan := CreatePlan(db, p, draw);
            var (s', r) := P.Create(Plain(db), p);
            Plain(After(db, plan.writes)) == s' && SameVerdict(plan.verdict, r, s')
  {
    NamedIsIds(db, p.slug);
    if Paths.ValidSlug(p.slug) && Ids(db, p.slug) == {} {
      CreationIsPlain(db, p, draw);
    }
  }

  lemma CreationIsPlain(db: Db, p: CreateParams, draw: Draw)
    requires WellFormed(db) && Ids(db, p.slug) == {}
    ensures var s, stored := Plain(db), UploadedFiles(p.upload);
            var e := P.NewEntry(p, P.Unpacked(p.upload, s.nextFile));
            && Plain(After(db, CreationPlan(db, p, draw).writes)) ==
               P.Store(if stored.complete then s.entries[s.nextEntry := e] else s.entries, s.nextEntry + 1,
                       s.nextFile + |stored.files|)
            && Shows(NewContent(p, db.nextContent, draw), e)
  {
    var s, c := Plain(db), NewContent(p, db.nextContent, draw);
    var insert := InsertContent(RowOf(c));
    var fill := FillWrites(c, p.upload, NewKey(p, draw), db.nextFile, draw);
    var files := P.Unpacked(p.upload, s.nextFile);
    InsertedIsPlain(db, p, draw, files);
    var db1 := Effect(db, insert);
    FillWritesArePlain(db1, c, p.upload, NewKey(p, draw), draw);
    assert s.nextEntry !in s.entries;
    hide *;
    Composed(db, insert, fill);
    InsertAndFill(s, Plain(db1), Plain(After(db1, fill)), s.nextEntry, P.NewEntry(p, map[]), files,
                  UploadedFiles(p.upload));
  }

  lemma Composed(db: Db, w: Write, ws: seq<Write>)
    ensures After(db, [w] + ws) == After(Effect(db, w), ws)
  {
    OneWrite(db, w);
    AtConcat(db, [w], ws, |ws|);
  }

  /** A new entry and its files, seen together; an entry taken out again leaves nothing but the numbers it used. */
  lemma InsertAndFill(s: P.Store, s1: P.Store, s2: P.Store, id: nat, e: P.Entry, files: map<nat, P.File>,
                      stored: Unpacked)
    requires id !in s.entries && s1 == P.Store(s.entries[id := e], s.nextEntry + 1, s.nextFile)
    requires s2 == P.Store(if stored.complete then s1.entries[id := e.(files := files)] else s1.entries - {id},
                           s1.nextEntry, s1.nextFile + |stored.files|)
    ensures s2 == P.Store(if stored.complete then s.entries[id := e.(files := files)] else s.entries,
                          s.nextEntry + 1, s.nextFile + |stored.files|)
  {
  }

  /** After its first statement a creation is an entry without files. */
  lemma InsertedIsPlain(db: Db, p: CreateParams, draw: Draw, files: map<nat, P.File>)
    requires WellFormed(db) && Ids(db, p.slug) == {}
    ensures var s, c, key := Plain(db), NewContent(p, db.nextContent, draw), NewKey(p, draw);
            var db' := Effect(db, InsertContent(RowOf(c)));
            && Constrained(db') && c.id == db.nextContent && c.id in db'.contents && db'.nextFile == db.nextFile
            && db'.contents[c.id].slug == c.slug && KeyOf(db'.contents[c.id]) == key
            && Plain(db') == P.Store(s.entries[s.nextEntry := P.NewEntry(p, map[])], s.nextEntry + 1, s.nextFile)
            && P.NewEntry(p, map[]).files == map[]
            && Shows(c, P.NewEntry(p, files)) && P.NewEntry(p, map[]).(files := files) == P.NewEntry(p, files)
  {
    var c := NewContent(p, db.nextContent, draw);
    NewContentSound(p, db.nextContent, draw);
    EffectKeepsConstraints(db, InsertContent(RowOf(c)));
    NewEntryIsPlain(db, RowOf(c));
  }

  lemma DeleteRefines(db: Db, slug: GoString, owner: string)
    requires WellFormed(db)
    ensures var plan := DeletePlan(db, slug, owner);
            var (s', r) := P.Delete(Plain(db), slug, owner);
            && Plain(After(db, plan.writes)) == s'
            && match (plan.verdict, r) {
                 case (Ok(c), Ok(id)) => c.id == id
                 case (Err(e), Err(e')) => e == e'
                 case _ => false
               }
  {
    OwnedAgrees(db, slug, owner);
    if Owned(db, slug, owner).Ok? {
      var id := Owned(db, slug, owner).value.id;
      OneWrite(db, RemoveContent(id));
      DropIsPlain(db, id);
    }
  }

  // ----- Visits -----------------------------------------------------------------------------------------------

  /** A deletion by the owner takes the entry and all its files and nothing else; by anyone else it is "not found". */
  lemma DeletionIsExact(db: Db, slug: GoString, owner: string)
    requires WellFormed(db)
    ensures var plan := DeletePlan(db, slug, owner);
            var db' := After(db, plan.writes);
            if exists id :: id in db.contents && db.contents[id].slug == slug && db.contents[id].owner == owner then
              && plan.verdict.Ok? && db'.nextContent == db.nextContent && db'.nextFile == db.nextFile
              && db'.contents == (map id | id in db.contents && db.contents[id].slug != slug :: db.contents[id])
              && db'.files == (map f | f in db.files && db.contents[db.files[f].contentId].slug != slug :: db.files[f])
            else plan.verdict == Err(NotFound) && db' == db
  {
    LoadMisses(db, slug);
    if id :| id in db.contents && db.contents[id].slug == slug {
      LoadFinds(db, slug, id);
      OneWrite(db, RemoveContent(id));
    }
  }

  /** The key a visitor holds after trying a passphrase. */
  ghost function KeyFrom(db: Db, slug: GoString, passphrase: string): seq<Byte> {
    match UnlockResult(db, slug, passphrase)
    case Ok(dek) => dek
    case Err(_) => []
  }

  lemma UnlockRefines(db: Db, slug: GoString, passphrase: string)
    requires WellFormed(db)
    ensures match UnlockResult(db, slug, passphrase)
            case Err(e) => P.Unlock(Plain(db), slug, passphrase) == Some(e)
            case Ok(dek) => P.Unlock(Plain(db), slug, passphrase).None? && |dek| == KEY_LEN
  {
    NamedIsIds(db, slug);
    LoadMisses(db, slug);
    if Ids(db, slug) != {} {
      var id :| id in Ids(db, slug);
      UnlockIsExact(db, slug, id, passphrase);
      EncryptedReadingsAgree(id, db.contents[id]);
    }
  }

  /**
   * Unlocking with a passphrase and then reading a path gives what the plain store shows to that passphrase:
   * the plaintexts stored under the path with the current passphrase, and no plaintext with any other.
   */
  lemma VisitRefines(db: Db, slug: GoString, passphrase: string, path: GoString)
    requires WellFormed(db) && SlugConsistent(db, slug)
    ensures Answers(db, slug, path, KeyFrom(db, slug, passphrase)) == P.Visit(Plain(db), slug, passphrase, path)
  {
    NamedIsIds(db, slug);
    LoadMisses(db, slug);
    if !Paths.Contains(path, "..") {
      if Hits(db, slug, path) != {} {
        var f :| f in Hits(db, slug, path);
        assert db.files[f].contentId in Ids(db, slug);
      }
      if Ids(db, slug) != {} {
        var id :| id in Ids(db, slug);
        EntryVisit(db, slug, id, passphrase, path);
      }
    }
  }

  lemma EntryVisit(db: Db, slug: GoString, id: nat, passphrase: string, path: GoString)
    requires WellFormed(db) && Consistent(db, id) && id in Ids(db, slug) && !Paths.Contains(path, "..")
    ensures var e := PlainEntry(db, id);
            var found := set f | f in e.files && e.files[f].path == path;
            Answers(db, slug, path, KeyFrom(db, slug, passphrase)) ==
            if e.passphrase.Some? && e.passphrase != Some(passphrase) then {Refused(PassphraseRequired)}
            else if found == {} then {Refused(NotFound)}
            else set f | f in found ::
                   Served(Bytes(e.files[f].bytes), e.files[f].contentType, e.allowExternal, e.passphrase.Some?)
  {
    var row, e := db.contents[id], PlainEntry(db, id);
    EncryptedReadingsAgree(id, row);
    UnlockIsExact(db, slug, id, passphrase);
    LoadFinds(db, slug, id);
    HitsAreRows(db, slug, path, id);
    assert Hits(db, slug, path) == set f | f in e.files && e.files[f].path == path;
    if Hits(db, slug, path) != {} {
      ReadsAreExact(db, slug, id, path, KeyFrom(db, slug, passphrase));
    }
  }

  // ----- Runs -------------------------------------------------------------------------------------------------

  ghost function PlainStep(s: P.Store, r: Request): P.Store {
    match r
    case Create(p, _) => P.Create(s, p).0
    case Update(p, _) => P.Update(s, p).0
    case Delete(slug, owner, _) => P.Delete(s, slug, owner).0
  }

  ghost function PlainRun(s: P.Store, requests: seq<Request>, i: nat): P.Store
    requires i <= |requests|
  {
    if i == 0 then s else PlainStep(PlainRun(s, requests, i - 1), requests[i - 1])
  }

  /** The tables after the first i requests, each of which ran to its end. */
  ghost function FaultFree(db: Db, requests: seq<Request>, i: nat): Db
    requires i <= |requests|
  {
    if i == 0 then db
    else var prev := FaultFree(db, requests, i - 1); After(prev, PlanOf(prev, requests[i - 1]).writes)
  }

  /** A request that runs to its end keeps every entry in step with its envelope, whatever it drew. */
  lemma FinishedKeepsHealth(db: Db, r: Request)
    requires Healthy(db)
    ensures Healthy(After(db, PlanOf(db, r).writes))
  {
    var ws := PlanOf(db, r).writes;
    var db' := After(db, ws);
    HappenedPermitted(db, r, |ws|, false);
    assert Leaves(db, r, |ws|, false, db');
    RequestKeepsForm(db, r, db');
    forall id | id in db'.contents
      ensures Consistent(db', id)
    {
      FinishedKeepsConsistency(db, r, id);
    }
  }

  /** The same for one entry, whatever the others are like. */
  lemma FinishedKeepsConsistency(db: Db, r: Request, id: nat)
    requires WellFormed(db) && Consistent(db, id)
    ensures Consistent(After(db, PlanOf(db, r).writes), id)
  {
    var ws := PlanOf(db, r).writes;
    HappenedPermitted(db, r, |ws|, false);
    if r.Update? && ws != [] && id in Ids(db, r.update.slug) {
      UpdateHasShape(db, r.update, r.draw, id);
    }
    StoppedKeepsConsistency(db, r, |ws|, false, id);
  }

  lemma StepRefines(db: Db, r: Request)
    requires WellFormed(db) && (r.Update? ==> SlugConsistent(db, r.update.slug))
    ensures Plain(After(db, PlanOf(db, r).writes)) == PlainStep(Plain(db), r)
  {
    match r
    case Create(p, draw) => CreateRefines(db, p, draw);
    case Update(p, draw) => UpdateRefines(db, p, draw);
    case Delete(slug, owner, _) => DeleteRefines(db, slug, owner);
  }

  /** A finished request is a step of a run that keeps identities and keeps every consistent entry consistent. */
  lemma {:induction false} FaultFreeKeeps(db: Db, requests: seq<Request>, i: nat)
    requires WellFormed(db) && i <= |requests|
    ensures var now := FaultFree(db, requests, i); WellFormed(now) && SameIdentity(db, now)
    ensures forall id :: Consistent(db, id) ==> Consistent(FaultFree(db, requests, i), id)
  {
    if i > 0 {
      var prev, r := FaultFree(db, requests, i - 1), requests[i - 1];
      var now := After(prev, PlanOf(prev, r).writes);
      FaultFreeKeeps(db, requests, i - 1);
      HappenedPermitted(prev, r, |PlanOf(prev, r).writes|, false);
      assert Leaves(prev, r, |PlanOf(prev, r).writes|, false, now);
      RequestKeepsForm(prev, r, now);
      RequestKeepsIdentity(prev, r, now);
      forall id | Consistent(db, id)
        ensures Consistent(now, id)
      {
        FinishedKeepsConsistency(prev, r, id);
      }
    }
  }

  /** A slug whose entry is in step at the start of a fault-free run stays so, also for later entries of that slug. */
  lemma SlugStaysConsistent(db: Db, requests: seq<Request>, i: nat, slug: GoString)
    requires WellFormed(db) && i <= |requests| && SlugConsistent(db, slug)
    ensures SlugConsistent(FaultFree(db, requests, i), slug)
  {
    FaultFreeKeeps(db, requests, i);
    var now := FaultFree(db, requests, i);
    forall id | id in Ids(now, slug)
      ensures Consistent(now, id)
    {
      if id < db.nextContent {
        assert id in Ids(db, slug);
      }
      assert Consistent(db, id);
    }
  }

  /**
   * Every fault-free run of creations, updates and deletions is, at each of its states, the run of the same
   * requests on the plain store, and a visitor of that state gets what a visitor of the plain store gets. Only the
   * entries that are updated or visited need to be in step at the start.
   */
  lemma {:induction false} RunsRefine(db: Db, requests: seq<Request>, i: nat, slug: GoString, passphrase: string,
                                      path: GoString)
    requires WellFormed(db) && i <= |requests| && SlugConsistent(db, slug)
    requires forall j :: 0 <= j < i && requests[j].Update? ==> SlugConsistent(db, requests[j].update.slug)
    ensures var now := FaultFree(db, requests, i);
            && WellFormed(now) && Plain(now) == PlainRun(Plain(db), requests, i)
            && Answers(now, slug, path, KeyFrom(now, slug, passphrase)) ==
               P.Visit(PlainRun(Plain(db), requests, i), slug, passphrase, path)
  {
    hide WellFormed, SlugConsistent, Consistent, SameIdentity, Plain, PlainStep, PlanOf, P.Visit, KeyFrom, Answers;
    if i > 0 {
      var r := requests[i - 1];
      RunsRefine(db, requests, i - 1, slug, passphrase, path);
      if r.Update? {
        SlugStaysConsistent(db, requests, i - 1, r.update.slug);
      }
      StepRefines(FaultFree(db, requests, i - 1), r);
    }
    FaultFreeKeeps(db, requests, i);
    SlugStaysConsistent(db, requests, i, slug);
    VisitRefines(FaultFree(db, requests, i), slug, passphrase, path);
  }
}
