/** The content service: every request carries out its plan on the database, statement by statement. */
module ContentService {
  import opened Wrappers
  import opened ByteStrings
  import opened Sealing
  import opened Store
  import opened Requests
  import Paths

  /** Exactly the first k writes of ws happened, in order. */
  ghost predicate Reached(before: Db, trail: seq<Db>, after: Db, trail': seq<Db>, ws: seq<Write>, k: nat) {
    k <= |ws| && after == At(before, ws, k) && trail' == trail + TrailOf(before, ws, k)
  }

  /** One more write of a plan has happened. */
  lemma ReachedNext(before: Db, trail: seq<Db>, mid: Db, trail': seq<Db>, ws: seq<Write>, k: nat, after: Db,
                    trail'': seq<Db>)
    requires Reached(before, trail, mid, trail', ws, k) && k < |ws| && Landed(mid, trail', after, trail'', ws[k])
    ensures Reached(before, trail, after, trail'', ws, k + 1)
  {
  }

  /** The first write of a plan has happened, or nothing has. */
  lemma FirstWriteOrNone(before: Db, trail: seq<Db>, after: Db, trail': seq<Db>, ws: seq<Write>)
    requires ws != []
    requires Landed(before, trail, after, trail', ws[0]) || (after == before && trail' == trail)
    ensures Reached(before, trail, after, trail', ws, if after == before && trail' == trail then 0 else 1)
  {
    if !(after == before && trail' == trail) {
      ReachedNext(before, trail, before, trail, ws, 0, after, trail');
    }
  }

  lemma InsertedRow(db: Db, row: ContentRow)
    ensures var db' := Effect(db, InsertContent(row));
            db' != db && db.nextContent in db'.contents && db'.nextFile == db.nextFile
  {
  }

  /** A plan carried out up to k is also the start of every longer plan carried out up to k. */
  lemma ReachedWithin(before: Db, trail: seq<Db>, after: Db, trail': seq<Db>, ws: seq<Write>, k: nat,
                      longer: seq<Write>)
    requires Reached(before, trail, after, trail', ws, k) && ws <= longer
    ensures Reached(before, trail, after, trail', longer, k)
  {
    AtPrefix(before, ws, longer, k);
  }

  lemma ReachedConcat(before: Db, trail: seq<Db>, mid: Db, trail': seq<Db>, ws: seq<Write>,
                      after: Db, trail'': seq<Db>, vs: seq<Write>, k: nat, all: seq<Write>)
    requires Reached(before, trail, mid, trail', ws, |ws|) && Reached(mid, trail', after, trail'', vs, k)
    requires all == ws + vs
    ensures Reached(before, trail, after, trail'', all, |ws| + k)
  {
    AtConcat(before, ws, vs, k);
  }

  /** Inserting files moves the file counter on and leaves the entries alone. */
  lemma {:induction false} InsertsAdvance(db: Db, id: nat, slug: GoString, key: Option<Dek>, files: seq<NewFile>,
                                          first: nat, draw: Draw, k: nat)
    requires k <= |files|
    ensures var db' := At(db, Inserts(id, slug, key, files, first, draw), k);
            db'.nextFile == db.nextFile + k && db'.contents == db.contents && db'.nextContent == db.nextContent
  {
    if k > 0 {
      InsertsAdvance(db, id, slug, key, files, first, draw, k - 1);
    }
  }

  function WritesOf(planned: Result<Change, Error>): seq<Write> {
    if planned.Ok? then planned.value.writes else []
  }

  /** How far an encryption change got: to its end with its planned answer, or to a storage failure on the way. */
  ghost predicate Carried(planned: Result<Change, Error>, c: Content, before: Db, trail: seq<Db>, after: Db,
                          trail': seq<Db>, r: Result<(Content, Option<Dek>), Error>, done: nat)
  {
    && Reached(before, trail, after, trail', WritesOf(planned), done)
    && (r != Err(StorageFailure) ==>
          && done == |WritesOf(planned)|
          && r == match planned {
                    case Err(e) => Err(e)
                    case Ok(change) => Ok((c.(encryption := change.encryption), change.key))
                  })
  }

  /** The re-encoding of a whole entry is determined by its rows, whatever the order they were listed in. */
  lemma ReencodedByRows(db: Db, c: Content, oldKey: Option<Dek>, newKey: Option<Dek>, draw: Draw,
                        rewritten: map<nat, Blob>)
    requires rewritten.Keys == Rows(db, c.id)
    requires forall f :: f in rewritten ==>
               && Decode(oldKey, c.slug, db.files[f].path, db.files[f].data).Some?
               && rewritten[f] == Encode(newKey, c.slug, db.files[f].path,
                                         Decode(oldKey, c.slug, db.files[f].path, db.files[f].data).value,
                                         draw.fileNonce(f))
    ensures Decodable(db, c.id, c.slug, oldKey) && rewritten == Reencoded(db, c.id, c.slug, oldKey, newKey, draw)
  {
  }

  /** The first k writes of ws happened, and then perhaps the removal of the entry. */
  ghost predicate ReachedOrUndone(before: Db, trail: seq<Db>, after: Db, trail': seq<Db>, ws: seq<Write>, k: nat,
                                  undone: bool, id: nat) {
    if !undone then Reached(before, trail, after, trail', ws, k)
    else k <= |ws| && Landed(At(before, ws, k), trail + TrailOf(before, ws, k), after, trail', RemoveContent(id))
  }

  lemma ReachedOrUndoneConcat(before: Db, trail: seq<Db>, mid: Db, trail': seq<Db>, ws: seq<Write>,
                              after: Db, trail'': seq<Db>, vs: seq<Write>, k: nat, undone: bool, id: nat,
                              all: seq<Write>)
    requires Reached(before, trail, mid, trail', ws, |ws|)
    requires ReachedOrUndone(mid, trail', after, trail'', vs, k, undone, id)
    requires all == ws + vs
    ensures ReachedOrUndone(before, trail, after, trail'', all, |ws| + k, undone, id)
  {
    AtConcat(before, ws, vs, k);
  }

  lemma SwapKeepsCounters(db: Db, planned: Result<Change, Error>)
    requires var ws := WritesOf(planned); ws != [] ==> |ws| == 1 && ws[0].SwapEncryption?
    ensures var db' := After(db, WritesOf(planned));
            db'.nextFile == db.nextFile && db'.contents.Keys == db.contents.Keys
  {
    var ws := WritesOf(planned);
    if ws != [] {
      assert At(db, ws, 1) == Effect(At(db, ws, 0), ws[0]);
    }
  }

  /** What is left of an extraction after k files is what is left of its members. */
  ghost predicate Remaining(all: Unpacked, k: nat, members: seq<Member>) {
    k <= |all.files| && all.files[k..] == Unpack(members).files && all.complete == Unpack(members).complete
  }

  lemma RemainingStored(all: Unpacked, k: nat, members: seq<Member>)
    requires Remaining(all, k, members) && members != [] && members[0].Stored?
    ensures k < |all.files| && all.files[k] == members[0].file && Remaining(all, k + 1, members[1..])
  {
    var files := all.files[k..];
    assert files == [members[0].file] + Unpack(members[1..]).files;
    assert files[0] == all.files[k];
    assert all.files[k + 1..] == files[1..];
  }

  class Service {
    const db: Database

    constructor (db: Database)
      ensures this.db == db
    {
      this.db := db;
    }

    // ----- Lookups ------------------------------------------------------------------------------------------

    method OwnedContent(slug: GoString, owner: string) returns (r: Result<Content, Error>)
      requires db.Valid()
      ensures r != Err(StorageFailure) ==> r == Owned(db.View(), slug, owner)
      ensures db.reliable ==> r != Err(StorageFailure)
    {
      r := db.GetContentBySlug(slug);
      if r.Ok? && r.value.owner != owner {
        r := Err(NotFound);
      }
    }

    // ----- Requests -------------------------------------------------------------------------------------------

    method Create(p: CreateParams, draw: Draw) returns (r: Result<Content, Error>, ghost done: nat, ghost undone: bool)
      requires db.Valid()
      modifies db
      ensures db.Valid()
      ensures var plan := CreatePlan(old(db.View()), p, draw);
              && ReachedOrUndone(old(db.View()), old(db.trail), db.View(), db.trail, plan.writes, done, undone,
                                 old(db.nextContent))
              && (undone ==> r == Err(StorageFailure) && 0 < done <= 1 + |UploadedFiles(p.upload).files|)
              && (r.Ok? ==> done == |plan.writes|)
              && (r != Err(StorageFailure) ==> r == plan.verdict)
      ensures db.reliable ==> r != Err(StorageFailure) && done == |CreatePlan(old(db.View()), p, draw).writes|
    {
      if !Paths.ValidSlug(p.slug) {
        return Err(InvalidSlug), 0, false;
      }
      var taken := db.SlugExists(p.slug);
      if taken.Err? {
        return Err(taken.error), 0, false;
      }
      if taken.value {
        return Err(SlugExists), 0, false;
      }
      r, done, undone := CreateEntry(p, draw);
    }

    /** The envelope goes in with the entry's row, before any file is sealed under its key. */
    method CreateEntry(p: CreateParams, draw: Draw)
      returns (r: Result<Content, Error>, ghost done: nat, ghost undone: bool)
      requires db.Valid() && Ids(db.View(), p.slug) == {}
      modifies db
      ensures db.Valid()
      ensures var plan := CreationPlan(old(db.View()), p, draw);
              && ReachedOrUndone(old(db.View()), old(db.trail), db.View(), db.trail, plan.writes, done, undone,
                                 old(db.nextContent))
              && (undone ==> r == Err(StorageFailure) && 0 < done <= 1 + |UploadedFiles(p.upload).files|)
              && (r.Ok? ==> done == |plan.writes|)
              && (r != Err(StorageFailure) ==> r == plan.verdict)
      ensures db.reliable ==> r != Err(StorageFailure) && done == |CreationPlan(old(db.View()), p, draw).writes|
    {
      hide Effect, Reached, WrapKey, OrElse, TrimSpace;
      ghost var db0, trail0 := db.View(), db.trail;
      var c, dek := BuildContent(p, draw, 0);
      assert RowOf(NewContent(p, db.nextContent, draw)) == RowOf(c);
      var inserted, id := db.CreateContent(c);
      ghost var plan := CreationPlan(db0, p, draw);
      FirstWriteOrNone(db0, trail0, db.View(), db.trail, plan.writes);
      if !inserted {
        return Err(StorageFailure), if db.View() == db0 && db.trail == trail0 then 0 else 1, false;
      }
      c := c.(id := id);
      InsertedRow(db0, RowOf(c));
      ghost var head, fill := [InsertContent(RowOf(c))], FillWrites(c, p.upload, dek, db0.nextFile, draw);
      FirstWriteOrNone(db0, trail0, db.View(), db.trail, head);
      ghost var db1, trail1 := db.View(), db.trail;
      var files: Result<(), Error>;
      files, done, undone := FillNew(c, p.upload, dek, draw);
      ReachedOrUndoneConcat(db0, trail0, db1, trail1, head, db.View(), db.trail, fill, done, undone, id, plan.writes);
      done := 1 + done;
      r := if files.Ok? then Ok(c) else Err(files.error);
    }

    /** The new entry and its data key; its id is not known before the row is inserted. */
    method BuildContent(p: CreateParams, draw: Draw, id: nat) returns (c: Content, dek: Option<Dek>)
      ensures c == NewContent(p, id, draw) && dek == NewKey(p, draw)
    {
      c := Content(id, p.slug, p.owner, OrElse(p.title, p.slug), TrimSpace(p.sourceUrl), OrElse(p.creator, p.owner),
                   p.allowExternal, None);
      dek := None;
      if p.passphrase != "" {
        var envelope := NewEnvelope(p.passphrase, p.slug, draw);
        c := c.(encryption := Some(envelope.value.0));
        dek := Some(envelope.value.1);
      }
    }

    /** Stores a new entry's files, and takes the entry out again when that fails. */
    method FillNew(c: Content, upload: Upload, dek: Option<Dek>, draw: Draw)
      returns (r: Result<(), Error>, ghost done: nat, ghost undone: bool)
      requires db.Valid()
      modifies db
      ensures db.Valid()
      ensures var ws := FillWrites(c, upload, dek, old(db.nextFile), draw);
              && ReachedOrUndone(old(db.View()), old(db.trail), db.View(), db.trail, ws, done, undone, c.id)
              && (undone ==> r == Err(StorageFailure) && done <= |UploadedFiles(upload).files|)
              && (r.Ok? ==> done == |ws|)
              && (r != Err(StorageFailure) ==> r == if UploadedFiles(upload).complete then Ok(()) else Err(BadArchive))
      ensures db.reliable && c.id in old(db.contents) ==>
                (r != Err(StorageFailure) && done == |FillWrites(c, upload, dek, old(db.nextFile), draw)|)
    {
      ghost var db0, trail0 := db.View(), db.trail;
      ghost var ws := FillWrites(c, upload, dek, db.nextFile, draw);
      ghost var inserts := Inserts(c.id, c.slug, dek, UploadedFiles(upload).files, db.nextFile, draw);
      r, done := StoreFiles(c, upload, dek, draw);
      ReachedWithin(db0, trail0, db.View(), db.trail, inserts, done, ws);
      undone := false;
      if r.Err? {
        ghost var db1, trail1 := db.View(), db.trail;
        // The compensation's own failure is not reported.
        var removed := db.DeleteContent(c.id);
        if removed || db.View() != db1 || db.trail != trail1 {
          if r.error == StorageFailure {
            undone := true;
          } else {
            ReachedNext(db0, trail0, db1, trail1, ws, done, db.View(), db.trail);
            done := done + 1;
          }
        }
      }
    }

    method Update(p: UpdateParams, draw: Draw) returns (r: Result<Content, Error>, ghost done: nat)
      requires db.Valid()
      modifies db
      ensures db.Valid()
      ensures var plan := UpdatePlan(old(db.View()), p, draw);
              && Reached(old(db.View()), old(db.trail), db.View(), db.trail, plan.writes, done)
              && (r != Err(StorageFailure) ==> done == |plan.writes| && r == plan.verdict)
      ensures db.reliable ==> r != Err(StorageFailure)
    {
      var found := OwnedContent(p.slug, p.owner);
      if found.Err? {
        return Err(found.error), 0;
      }
      r, done := Change(WithMetadata(found.value, p), p, draw);
    }

    /** The encryption change comes first, so that a bad passphrase is refused before anything is written. */
    method Change(c: Content, p: UpdateParams, draw: Draw) returns (r: Result<Content, Error>, ghost done: nat)
      requires db.Valid() && c.id in db.contents
      modifies db
      ensures db.Valid()
      ensures var plan := ChangePlan(old(db.View()), c, p, draw);
              && Reached(old(db.View()), old(db.trail), db.View(), db.trail, plan.writes, done)
              && (r != Err(StorageFailure) ==> done == |plan.writes| && r == plan.verdict)
      ensures db.reliable ==> r != Err(StorageFailure)
    {
      ghost var db0, trail0 := db.View(), db.trail;
      ghost var planned := EncryptionChange(db0, c, p, draw);
      var change: Result<(Content, Option<Dek>), Error>;
      change, done := ApplyEncryptionChange(c, p, draw);
      if change.Err? {
        ReachedWithin(db0, trail0, db.View(), db.trail, WritesOf(planned), done, ChangePlan(db0, c, p, draw).writes);
        return Err(change.error), done;
      }
      SwapKeepsCounters(db0, planned);
      r, done := Finish(change.value.0, p, change.value.1, draw, db0, trail0, planned);
    }

    method Finish(c: Content, p: UpdateParams, dek: Option<Dek>, draw: Draw,
                  ghost db0: Db, ghost trail0: seq<Db>, ghost planned: Result<Change, Error>)
      returns (r: Result<Content, Error>, ghost done: nat)
      requires db.Valid()
      requires Reached(db0, trail0, db.View(), db.trail, WritesOf(planned), |WritesOf(planned)|)
      modifies db
      ensures db.Valid()
      ensures var ws := WritesOf(planned) + ChangeWrites(c, p, dek, old(db.nextFile), draw);
              && Reached(db0, trail0, db.View(), db.trail, ws, done)
              && (r != Err(StorageFailure) ==>
                    && done == |ws|
                    && r == if p.Replaces() && !UploadedFiles(p.upload).complete then Err(BadArchive) else Ok(c))
      ensures db.reliable && c.id in old(db.contents) ==> r != Err(StorageFailure)
    {
      ghost var db1, trail1 := db.View(), db.trail;
      ghost var head, rest := WritesOf(planned), ChangeWrites(c, p, dek, db.nextFile, draw);
      var written: Result<(), Error>;
      written, done := WriteChange(c, p, dek, draw);
      ReachedConcat(db0, trail0, db1, trail1, head, db.View(), db.trail, rest, done, head + rest);
      done := |head| + done;
      r := if written.Ok? then Ok(c) else Err(written.error);
    }

    /** The metadata, then the replacement files if any: old ones out first, new ones in. */
    method WriteChange(c: Content, p: UpdateParams, dek: Option<Dek>, draw: Draw)
      returns (r: Result<(), Error>, ghost done: nat)
      requires db.Valid()
      modifies db
      ensures db.Valid()
      ensures var ws := ChangeWrites(c, p, dek, old(db.nextFile), draw);
              && Reached(old(db.View()), old(db.trail), db.View(), db.trail, ws, done)
              && (r != Err(StorageFailure) ==>
                    && done == |ws|
                    && r == if p.Replaces() && !UploadedFiles(p.upload).complete then Err(BadArchive) else Ok(()))
      ensures db.reliable && c.id in old(db.contents) ==> r != Err(StorageFailure)
    {
      ghost var db0, trail0 := db.View(), db.trail;
      ghost var ws := ChangeWrites(c, p, dek, db.nextFile, draw);
      done := 0;
      var ok := db.UpdateContent(c);
      if ok || db.View() != db0 || db.trail != trail0 {
        ReachedNext(db0, trail0, db0, trail0, ws, 0, db.View(), db.trail);
        done := 1;
      }
      if !ok {
        return Err(StorageFailure), done;
      }
      r := Ok(());
      if |p.upload.data| > 0 {
        r, done := ReplaceFiles(c, p.upload, dek, draw, db0, trail0, ws);
      }
    }

    method ReplaceFiles(c: Content, upload: Upload, dek: Option<Dek>, draw: Draw, ghost db0: Db,
                        ghost trail0: seq<Db>, ghost ws: seq<Write>)
      returns (r: Result<(), Error>, ghost done: nat)
      requires db.Valid()
      requires ws == [MetadataWrite(c), RemoveFiles(c.id)] +
                     Inserts(c.id, c.slug, dek, UploadedFiles(upload).files, db.nextFile, draw)
      requires Reached(db0, trail0, db.View(), db.trail, ws, 1)
      modifies db
      ensures db.Valid()
      ensures Reached(db0, trail0, db.View(), db.trail, ws, done)
      ensures r != Err(StorageFailure) ==>
                done == |ws| && r == if UploadedFiles(upload).complete then Ok(()) else Err(BadArchive)
      ensures db.reliable && c.id in old(db.contents) ==> r != Err(StorageFailure)
    {
      ghost var db1, trail1 := db.View(), db.trail;
      ghost var head, inserts := ws[..2], Inserts(c.id, c.slug, dek, UploadedFiles(upload).files, db.nextFile, draw);
      done := 1;
      var ok := db.DeleteContentFiles(c.id);
      if ok || db.View() != db1 || db.trail != trail1 {
        ReachedNext(db0, trail0, db1, trail1, ws, 1, db.View(), db.trail);
        done := 2;
      }
      if !ok {
        return Err(StorageFailure), done;
      }
      ghost var db2, trail2 := db.View(), db.trail;
      AtPrefix(db0, ws, head, 2);
      r, done := StoreFiles(c, upload, dek, draw);
      assert ws == head + inserts;
      ReachedConcat(db0, trail0, db2, trail2, head, db.View(), db.trail, inserts, done, ws);
      done := 2 + done;
    }

    method Delete(slug: GoString, owner: string) returns (r: Result<Content, Error>, ghost done: nat)
      requires db.Valid()
      modifies db
      ensures db.Valid()
      ensures var plan := DeletePlan(old(db.View()), slug, owner);
              && Reached(old(db.View()), old(db.trail), db.View(), db.trail, plan.writes, done)
              && (r != Err(StorageFailure) ==> done == |plan.writes| && r == plan.verdict)
      ensures db.reliable ==> r != Err(StorageFailure)
    {
      done := 0;
      ghost var db0, trail0 := db.View(), db.trail;
      ghost var ws := DeletePlan(db0, slug, owner).writes;
      r := OwnedContent(slug, owner);
      if r.Err? {
        return;
      }
      var ok := db.DeleteContent(r.value.id);
      if ok || db.View() != db0 || db.trail != trail0 {
        ReachedNext(db0, trail0, db0, trail0, ws, 0, db.View(), db.trail);
        done := 1;
      }
      if !ok {
        r := Err(StorageFailure);
      }
    }

    // ----- Encryption changes -----------------------------------------------------------------------------------

    method ApplyEncryptionChange(c: Content, p: UpdateParams, draw: Draw)
      returns (r: Result<(Content, Option<Dek>), Error>, ghost done: nat)
      requires db.Valid()
      modifies db
      ensures db.Valid()
      ensures Carried(EncryptionChange(old(db.View()), c, p, draw), c, old(db.View()), old(db.trail), db.View(),
                      db.trail, r, done)
      ensures db.reliable ==> r != Err(StorageFailure)
    {
      done := 0;
      if c.encryption.None? && (p.removeEncryption || p.newPassphrase != "") {
        r := Err(NotEncrypted);
      } else if c.encryption.None? && p.passphrase != "" {
        r, done := EncryptEntry(c, p.passphrase, |p.upload.data| > 0, draw);
      } else if c.encryption.None? {
        r := Ok((c, None));
      } else if p.removeEncryption {
        r, done := DecryptEntry(c, p.passphrase, |p.upload.data| > 0, draw);
      } else if p.newPassphrase != "" {
        r, done := RotatePassphrase(c, p.passphrase, p.newPassphrase, |p.upload.data| > 0, draw);
      } else if |p.upload.data| > 0 {
        var key := UnwrapFor(c.encryption.value, p.passphrase, c.slug);
        r := if key.Ok? then Ok((c, Some(key.value))) else Err(key.error);
      } else {
        r := Ok((c, None));
      }
    }

    /** The transaction shared by the three changes, seen as the single planned write. */
    method Apply(c: Content, env: Option<Envelope>, rewritten: map<nat, Blob>, key: Option<Dek>)
      returns (r: Result<(Content, Option<Dek>), Error>, ghost done: nat)
      requires db.Valid()
      modifies db
      ensures db.Valid()
      ensures Carried(Ok(Requests.Change([SwapEncryption(c.id, env, rewritten)], env, key)), c,
                      old(db.View()), old(db.trail), db.View(), db.trail, r, done)
      ensures db.reliable ==> r != Err(StorageFailure)
    {
      ghost var db0, trail0 := db.View(), db.trail;
      ghost var ws := [SwapEncryption(c.id, env, rewritten)];
      done := 0;
      var ok := db.ApplyEncryption(c.id, env, rewritten);
      if ok || db.View() != db0 || db.trail != trail0 {
        ReachedNext(db0, trail0, db0, trail0, ws, 0, db.View(), db.trail);
        done := 1;
      }
      r := if ok then Ok((c.(encryption := env), key)) else Err(StorageFailure);
    }

    /** The loop over an entry's files, shared by the three changes: open with one key, seal with the other. */
    method ReencodeAll(slug: GoString, files: seq<(nat, FileRow)>, oldKey: Option<Dek>, newKey: Option<Dek>, draw: Draw,
                       ghost rows: map<nat, FileRow>)
      returns (r: Result<map<nat, Blob>, Error>)
      requires forall e :: e in files ==> e.0 in rows && e.1 == rows[e.0]
      ensures r.Ok? ==> forall e :: e in files ==> e.0 in r.value
      ensures r.Ok? ==> forall f :: f in r.value ==>
                (&& f in rows && (f, rows[f]) in files
                 && Decode(oldKey, slug, rows[f].path, rows[f].data).Some?
                 && r.value[f] == Encode(newKey, slug, rows[f].path,
                                        Decode(oldKey, slug, rows[f].path, rows[f].data).value, draw.fileNonce(f)))
      ensures r.Err? ==>
                r.error == Corrupted && exists e :: e in files && Decode(oldKey, slug, e.1.path, e.1.data).None?
    {
      var rewritten: map<nat, Blob> := map[];
      for i := 0 to |files|
        invariant forall k :: 0 <= k < i ==> files[k].0 in rewritten
        invariant forall f :: f in rewritten ==>
                    && f in rows && (f, rows[f]) in files
                    && Decode(oldKey, slug, rows[f].path, rows[f].data).Some?
                    && rewritten[f] == Encode(newKey, slug, rows[f].path,
                                              Decode(oldKey, slug, rows[f].path, rows[f].data).value, draw.fileNonce(f))
      {
        var (f, row) := files[i];
        assert files[i] in files;
        var plaintext := Decode(oldKey, slug, row.path, row.data);
        if plaintext.None? {
          return Err(Corrupted);
        }
        rewritten := rewritten[f := Encode(newKey, slug, row.path, plaintext.value, draw.fileNonce(f))];
      }
      r := Ok(rewritten);
    }

    /** Reads the entry's files and re-encodes them, or does neither when they are about to be replaced. */
    method RewriteFiles(c: Content, filesReplaced: bool, oldKey: Option<Dek>, newKey: Option<Dek>, draw: Draw)
      returns (r: Result<map<nat, Blob>, Error>)
      ensures r.Err? && r.error != StorageFailure ==>
                r.error == Corrupted && !filesReplaced && !Decodable(db.View(), c.id, c.slug, oldKey)
      ensures r.Ok? ==> r.value == if filesReplaced then map[] else
                if Decodable(db.View(), c.id, c.slug, oldKey)
                then Reencoded(db.View(), c.id, c.slug, oldKey, newKey, draw) else r.value
      ensures r.Ok? && !filesReplaced ==> Decodable(db.View(), c.id, c.slug, oldKey)
      ensures db.reliable ==> r != Err(StorageFailure)
    {
      if filesReplaced {
        return Ok(map[]);
      }
      var files := db.ListContentFiles(c.id);
      if files.Err? {
        return Err(files.error);
      }
      r := ReencodeAll(c.slug, files.value, oldKey, newKey, draw, db.files);
      if r.Ok? {
        assert forall f :: f in Rows(db.View(), c.id) ==> (f, db.files[f]) in files.value;
        ReencodedByRows(db.View(), c, oldKey, newKey, draw, r.value);
      }
    }

    method EncryptEntry(c: Content, passphrase: string, filesReplaced: bool, draw: Draw)
      returns (r: Result<(Content, Option<Dek>), Error>, ghost done: nat)
      requires db.Valid()
      modifies db
      ensures db.Valid()
      ensures Carried(Encrypt(old(db.View()), c, passphrase, filesReplaced, draw), c,
                      old(db.View()), old(db.trail), db.View(), db.trail, r, done)
      ensures db.reliable ==> r != Err(StorageFailure)
    {
      var envelope := NewEnvelope(passphrase, c.slug, draw);
      if envelope.Err? {
        return Err(envelope.error), 0;
      }
      var (env, dek) := envelope.value;
      var rewritten := RewriteFiles(c, filesReplaced, None, Some(dek), draw);
      if rewritten.Err? {
        return Err(rewritten.error), 0;
      }
      r, done := Apply(c, Some(env), rewritten.value, Some(dek));
    }

    method DecryptEntry(c: Content, passphrase: string, filesReplaced: bool, draw: Draw)
      returns (r: Result<(Content, Option<Dek>), Error>, ghost done: nat)
      requires db.Valid() && c.encryption.Some?
      modifies db
      ensures db.Valid()
      ensures Carried(Decrypt(old(db.View()), c, c.encryption.value, passphrase, filesReplaced, draw), c,
                      old(db.View()), old(db.trail), db.View(), db.trail, r, done)
      ensures db.reliable ==> r != Err(StorageFailure)
    {
      var key := UnwrapFor(c.encryption.value, passphrase, c.slug);
      if key.Err? {
        return Err(key.error), 0;
      }
      var rewritten := RewriteFiles(c, filesReplaced, Some(key.value), None, draw);
      if rewritten.Err? {
        return Err(rewritten.error), 0;
      }
      r, done := Apply(c, None, rewritten.value, None);
    }

    method RotatePassphrase(c: Content, current: string, next: string, filesReplaced: bool, draw: Draw)
      returns (r: Result<(Content, Option<Dek>), Error>, ghost done: nat)
      requires db.Valid() && c.encryption.Some?
      modifies db
      ensures db.Valid()
      ensures Carried(Rotate(old(db.View()), c, c.encryption.value, current, next, filesReplaced, draw), c,
                      old(db.View()), old(db.trail), db.View(), db.trail, r, done)
      ensures db.reliable ==> r != Err(StorageFailure)
    {
      var oldDek := UnwrapFor(c.encryption.value, current, c.slug);
      if oldDek.Err? {
        return Err(oldDek.error), 0;
      }
      var envelope := NewEnvelope(next, c.slug, draw);
      if envelope.Err? {
        return Err(envelope.error), 0;
      }
      var (env, newDek) := envelope.value;
      var rewritten := RewriteFiles(c, filesReplaced, Some(oldDek.value), Some(newDek), draw);
      if rewritten.Err? {
        return Err(rewritten.error), 0;
      }
      r, done := Apply(c, Some(env), rewritten.value, Some(newDek));
    }

    // ----- Files --------------------------------------------------------------------------------------------------

    method StoreFiles(c: Content, upload: Upload, dek: Option<Dek>, draw: Draw)
      returns (r: Result<(), Error>, ghost done: nat)
      requires db.Valid()
      modifies db
      ensures db.Valid()
      ensures var files := UploadedFiles(upload);
              var ws := Inserts(c.id, c.slug, dek, files.files, old(db.nextFile), draw);
              && Reached(old(db.View()), old(db.trail), db.View(), db.trail, ws, done)
              && (r != Err(StorageFailure) ==> done == |ws| && r == if files.complete then Ok(()) else Err(BadArchive))
      ensures db.reliable && c.id in old(db.contents) ==> r != Err(StorageFailure)
    {
      if IsZip(upload.fileName) {
        if upload.archive.None? {
          assert UploadedFiles(upload).files == [];
          return Err(BadArchive), 0;
        }
        r, done := ExtractZip(c, Members(upload.archive.value), dek, draw);
      } else {
        ghost var ws := Inserts(c.id, c.slug, dek, UploadedFiles(upload).files, db.nextFile, draw);
        r, done := StoreNext(c, IndexFile(upload.data), dek, draw, db.View(), db.trail, ws, 0);
      }
    }

    method ExtractZip(c: Content, members: seq<Member>, dek: Option<Dek>, draw: Draw)
      returns (r: Result<(), Error>, ghost done: nat)
      requires db.Valid()
      modifies db
      ensures db.Valid()
      ensures var all := Unpack(members);
              var ws := Inserts(c.id, c.slug, dek, all.files, old(db.nextFile), draw);
              && Reached(old(db.View()), old(db.trail), db.View(), db.trail, ws, done)
              && (r != Err(StorageFailure) ==> done == |ws| && r == if all.complete then Ok(()) else Err(BadArchive))
      ensures db.reliable && c.id in old(db.contents) ==> r != Err(StorageFailure)
    {
      ghost var db0, trail0, all := db.View(), db.trail, Unpack(members);
      ghost var ws := Inserts(c.id, c.slug, dek, all.files, db.nextFile, draw);
      done := 0;
      for i := 0 to |members|
        invariant db.Valid()
        invariant Reached(db0, trail0, db.View(), db.trail, ws, done)
        invariant db.nextFile == db0.nextFile + done && db.contents == db0.contents
        invariant Remaining(all, done, members[i..])
      {
        assert members[i..][0] == members[i] && members[i..][1..] == members[i + 1..];
        match members[i] {
          case Skipped =>
          case Unreadable =>
            return Err(BadArchive), done;
          case Stored(file) =>
            RemainingStored(all, done, members[i..]);
            r, done := StoreNext(c, file, dek, draw, db0, trail0, ws, done);
            if r.Err? {
              return;
            }
            InsertsAdvance(db0, c.id, c.slug, dek, all.files, db0.nextFile, draw, done);
        }
      }
      r := Ok(());
    }

    /** One more planned insert. */
    method StoreNext(c: Content, file: NewFile, dek: Option<Dek>, draw: Draw,
                     ghost db0: Db, ghost trail0: seq<Db>, ghost ws: seq<Write>, ghost k: nat)
      returns (r: Result<(), Error>, ghost done: nat)
      requires db.Valid() && Reached(db0, trail0, db.View(), db.trail, ws, k)
      requires k < |ws| && ws[k] == InsertFile(NewRow(c.id, c.slug, dek, file, draw.fileNonce(db.nextFile)))
      modifies db
      ensures db.Valid() && Reached(db0, trail0, db.View(), db.trail, ws, done)
      ensures r == Ok(()) || r == Err(StorageFailure)
      ensures r.Ok? ==> done == k + 1
      ensures db.reliable && c.id in old(db.contents) ==> r.Ok?
    {
      ghost var db1, trail1 := db.View(), db.trail;
      r := CreateFile(c, file, dek, draw);
      done := k;
      if r.Ok? || db.View() != db1 || db.trail != trail1 {
        ReachedNext(db0, trail0, db1, trail1, ws, k, db.View(), db.trail);
        done := k + 1;
      }
    }

    method CreateFile(c: Content, file: NewFile, dek: Option<Dek>, draw: Draw) returns (r: Result<(), Error>)
      requires db.Valid()
      modifies db
      ensures db.Valid()
      ensures var w := InsertFile(NewRow(c.id, c.slug, dek, file, draw.fileNonce(old(db.nextFile))));
              || Landed(old(db.View()), old(db.trail), db.View(), db.trail, w)
              || (r.Err? && db.View() == old(db.View()) && db.trail == old(db.trail))
      ensures r == Ok(()) || r == Err(StorageFailure)
      ensures db.reliable && c.id in old(db.contents) ==> r.Ok?
    {
      var data := Bytes(file.data);
      if dek.Some? {
        data := Seal(DataKey(dek.value), draw.fileNonce(db.nextFile), FileAad(c.slug, file.path), data);
      }
      var ok := db.CreateContentFile(FileRow(c.id, file.path, data, file.contentType));
      r := if ok then Ok(()) else Err(StorageFailure);
    }

    // ----- Reads -----------------------------------------------------------------------------------------------------

    method Unlock(slug: GoString, passphrase: string) returns (r: Result<Dek, Error>)
      requires db.Valid()
      ensures r != Err(StorageFailure) ==> r == UnlockResult(db.View(), slug, passphrase)
      ensures db.reliable ==> r != Err(StorageFailure)
    {
      var c := db.GetContentBySlug(slug);
      if c.Err? {
        return Err(c.error);
      }
      if c.value.encryption.None? {
        return Err(NotEncrypted);
      }
      if passphrase == "" {
        return Err(PassphraseRequired);
      }
      r := Unwrap(c.value.encryption.value, passphrase, slug);
    }

    method GetFile(slug: GoString, path: GoString, dek: seq<Byte>) returns (answer: Answer)
      requires db.Valid()
      ensures answer in Answers(db.View(), slug, path, dek) || (answer == Refused(StorageFailure) && !db.reliable)
    {
      if Paths.Contains(path, "..") {
        return Refused(InvalidFilePath);
      }
      var f := db.GetContentFile(slug, path);
      if f == Err(NotFound) {
        answer := NotFoundOrLocked(slug, dek);
        return;
      }
      if f.Err? {
        return Refused(f.error);
      }
      answer := AnswerFor(f.value, slug, path, dek);
    }

    method NotFoundOrLocked(slug: GoString, dek: seq<Byte>) returns (answer: Answer)
      requires db.Valid()
      ensures answer == MissingAnswer(db.View(), slug, dek) || (answer == Refused(StorageFailure) && !db.reliable)
    {
      if |dek| > 0 {
        return Refused(NotFound);
      }
      var c := db.GetContentBySlug(slug);
      if c.Err? {
        return Refused(c.error);
      }
      answer := Refused(if c.value.encryption.Some? then PassphraseRequired else NotFound);
    }
  }
}
