/**
 * Encryption changes keep what an entry means: its file rows, their paths and types, and the plaintext each of
 * them decodes to. Replacement files are sealed with exactly the key that the stored envelope wraps.
 */
module Preservation {
  import opened Wrappers
  import opened ByteStrings
  import opened Sealing
  import opened Store
  import opened Requests
  import opened Invariants
  import opened Runs
  import opened Crashes

  /** What the entry's key makes of a stored payload. */
  function Meaning(db: Db, f: nat): Option<Blob>
    requires f in db.files && db.files[f].contentId in db.contents
  {
    var file := db.files[f];
    var row := db.contents[file.contentId];
    Decode(KeyOf(row), row.slug, file.path, file.data)
  }

  /**
   * The file is there in both, in the same place of the same entry and of the same type, and decodes to the same bytes.
   */
  ghost predicate SameFile(db: Db, db': Db, f: nat) {
    && f in db.files && f in db'.files
    && db'.files[f].contentId == db.files[f].contentId && db'.files[f].path == db.files[f].path
    && db'.files[f].contentType == db.files[f].contentType
    && db.files[f].contentId in db.contents && db'.files[f].contentId in db'.contents
    && Meaning(db', f) == Meaning(db, f)
  }

  ghost predicate SameMeaning(db: Db, db': Db) {
    db'.files.Keys == db.files.Keys && forall f :: f in db.files ==> SameFile(db, db', f)
  }

  lemma SwapKeepsMeaning(db: Db, w: Write, who: string, dek: Dek)
    requires WellFormed(db) && Permitted(db, w, who, dek)
    requires w.SwapEncryption? && w.rewritten.Keys == Rows(db, w.id)
    ensures SameMeaning(db, Effect(db, w))
  {
    var db' := Effect(db, w);
    forall f | f in db.files
      ensures SameFile(db, db', f)
    {
      if db.files[f].contentId == w.id {
        assert f in Rows(db, w.id);
        assert Recoded(KeyOf(db.contents[w.id]), KeyOf(db'.contents[w.id]), db.contents[w.id].slug, db.files[f],
                       w.rewritten[f]);
      }
    }
  }

  lemma MetadataKeepsMeaning(db: Db, w: Write)
    requires Constrained(db) && w.SetMetadata?
    ensures SameMeaning(db, Effect(db, w))
  {
  }

  /** At every statement boundary of an update without replacement files, every file of every entry is the same. */
  lemma UpdateKeepsMeaning(db: Db, p: UpdateParams, draw: Draw, k: nat)
    requires WellFormed(db) && !p.Replaces() && k <= |UpdatePlan(db, p, draw).writes|
    ensures SameMeaning(db, At(db, UpdatePlan(db, p, draw).writes, k))
  {
    var ws := UpdatePlan(db, p, draw).writes;
    if k > 0 {
      var id := UpdatedEntry(db, p, draw);
      UpdatePermitted(db, p, draw);
      UpdateHasShape(db, p, draw, id);
      ShapeKeepsMeaning(db, ws, p, id, draw.dek, k);
    }
  }

  lemma ShapeKeepsMeaning(db: Db, ws: seq<Write>, p: UpdateParams, id: nat, dek: Dek, k: nat)
    requires WellFormed(db) && id in db.contents && !p.Replaces() && 0 < k <= |ws|
    requires PlanPermitted(db, ws, p.owner, dek)
    requires UpdateShape(db, ws, p, id, if ChangesEncryption(db.contents[id], p) then 1 else 0)
    ensures SameMeaning(db, At(db, ws, k))
  {
    PermittedEarlier(db, ws, p.owner, dek, |ws|, 1);
    assert At(db, ws, 0) == db;
    var mid := Effect(db, ws[0]);
    assert At(db, ws, 1) == mid;
    if ws[0].SwapEncryption? {
      SwapKeepsMeaning(db, ws[0], p.owner, dek);
      PermittedKeepsForm(db, ws[0], p.owner, dek);
      if k == 2 {
        MetadataKeepsMeaning(mid, ws[1]);
      }
    } else {
      MetadataKeepsMeaning(db, ws[0]);
    }
  }

  /**
   * Any sequence of encryptions, decryptions, rotations and metadata edits, each possibly stopped at any of its
   * statements, keeps every file of the store.
   */
  lemma {:induction false} UpdatesKeepMeaning(states: seq<Db>, requests: seq<Request>, i: nat)
    requires IsRun(states, requests) && WellFormed(states[0]) && i < |states|
    requires forall j :: 0 <= j < |requests| ==> requests[j].Update? && !requests[j].update.Replaces()
    ensures SameMeaning(states[0], states[i])
  {
    hide SameMeaning, WellFormed, MayLeave;
    if i == 0 {
      SameMeaningRefl(states[0]);
    } else {
      UpdatesKeepMeaning(states, requests, i - 1);
      RunsKeepForm(states, requests, i - 1);
      RequestKeepsMeaning(states[i - 1], requests[i - 1], states[i]);
      SameMeaningTrans(states[0], states[i - 1], states[i]);
    }
  }

  lemma RequestKeepsMeaning(db: Db, r: Request, db': Db)
    requires WellFormed(db) && MayLeave(db, r, db') && r.Update? && !r.update.Replaces()
    ensures SameMeaning(db, db')
  {
    var k: nat, undone :| Leaves(db, r, k, undone, db');
    HappenedPermitted(db, r, k, undone);
    UpdateKeepsMeaning(db, r.update, r.draw, k);
  }

  lemma SameMeaningRefl(db: Db)
    requires WellFormed(db)
    ensures SameMeaning(db, db)
  {
  }

  lemma SameMeaningTrans(db: Db, mid: Db, end: Db)
    requires SameMeaning(db, mid) && SameMeaning(mid, end)
    ensures SameMeaning(db, end)
  {
    forall f | f in db.files
      ensures SameFile(db, end, f)
    {
      assert SameFile(db, mid, f) && SameFile(mid, end, f);
    }
  }

  // ----- The key new files are sealed with ---------------------------------------------------------------------

  /** The k-th write stores this file, sealed for its place with the key of the envelope that stands there. */
  ghost predicate StoresSealed(db: Db, ws: seq<Write>, k: nat, c: Content, key: Option<Dek>, file: NewFile,
                               nonce: seq<Byte>) {
    && k < |ws| && ws[k] == InsertFile(NewRow(c.id, c.slug, key, file, nonce))
    && c.id in At(db, ws, k).contents && Guards(At(db, ws, k).contents[c.id], key)
  }

  /**
   * When an update comes to store its j-th replacement file, it seals the file with a key exactly if the entry's
   * stored envelope exists, and then with the key that the envelope gives to its passphrase: the key just drawn
   * if the envelope is new, the one the entry had if it is not.
   */
  lemma KeyMatchesEnvelope(db: Db, c: Content, p: UpdateParams, draw: Draw, j: nat)
    requires WellFormed(db) && Stands(db, c) && p.Replaces() && j < |UploadedFiles(p.upload).files|
    requires EncryptionChange(db, c, p, draw).Ok?
    ensures var change, ws := EncryptionChange(db, c, p, draw).value, ChangePlan(db, c, p, draw).writes;
            && StoresSealed(db, ws, |change.writes| + 2 + j, c, change.key, UploadedFiles(p.upload).files[j],
                            draw.fileNonce(db.nextFile + j))
            && (change.key.Some? ==>
                  change.key == if change.writes == [] then KeyOf(db.contents[c.id]) else Some(draw.dek))
  {
    hide EncryptionChange, ChangeWrites, Effect, Guards, NewRow, UploadedFiles, KeyOf, SoundRow, WellFormed;
    var change := EncryptionChange(db, c, p, draw).value;
    ChangeKey(db, c, p, draw);
    ChangePermitted(db, c, p, draw);
    SwapKeepsIdentity(db, c, p, draw);
    KeyStandsAfter(db, c.(encryption := change.encryption), p, change, draw, j);
  }

  lemma KeyStandsAfter(db: Db, c: Content, p: UpdateParams, change: Change, draw: Draw, j: nat)
    requires p.Replaces() && j < |UploadedFiles(p.upload).files|
    requires var db' := After(db, change.writes);
             && c.id in db'.contents && c.slug == db'.contents[c.id].slug && c.owner == db'.contents[c.id].owner
             && SoundRow(db'.contents[c.id]) && change.key == KeyOf(db'.contents[c.id])
    ensures var ws := change.writes + ChangeWrites(c, p, change.key, db.nextFile, draw);
            StoresSealed(db, ws, |change.writes| + 2 + j, c, change.key, UploadedFiles(p.upload).files[j],
                         draw.fileNonce(db.nextFile + j))
  {
    hide Effect, ChangeWrites, Guards, SoundRow, NewRow, UploadedFiles;
    var tail := ChangeWrites(c, p, change.key, db.nextFile, draw);
    KeyStandsInTail(After(db, change.writes), c, p, change.key, db.nextFile, draw, j);
    AtConcat(db, change.writes, tail, 2 + j);
  }

  lemma ChangeKey(db: Db, c: Content, p: UpdateParams, draw: Draw)
    requires WellFormed(db) && Stands(db, c) && p.Replaces() && EncryptionChange(db, c, p, draw).Ok?
    ensures var change := EncryptionChange(db, c, p, draw).value;
            change.key.Some? ==> change.key == if change.writes == [] then KeyOf(db.contents[c.id]) else Some(draw.dek)
  {
    if c.encryption.Some? {
      UnwrapForEntry(db.contents[c.id], p.passphrase);
    }
  }

  /** The key is the one the row's envelope holds, or there is neither. */
  ghost predicate Guards(row: ContentRow, key: Option<Dek>) {
    && (key.Some? <==> EnvelopeOf(row).Some?)
    && (key.Some? ==>
          && PassphraseOf(row).Some?
          && Unwrap(EnvelopeOf(row).value, PassphraseOf(row).value, row.slug) == Ok(key.value))
  }

  lemma KeyStandsInTail(db: Db, c: Content, p: UpdateParams, key: Option<Dek>, first: nat, draw: Draw, j: nat)
    requires c.id in db.contents && c.slug == db.contents[c.id].slug && c.owner == db.contents[c.id].owner
    requires SoundRow(db.contents[c.id]) && key == KeyOf(db.contents[c.id])
    requires p.Replaces() && j < |UploadedFiles(p.upload).files|
    ensures StoresSealed(db, ChangeWrites(c, p, key, first, draw), 2 + j, c, key, UploadedFiles(p.upload).files[j],
                         draw.fileNonce(first + j))
  {
    InsertInTail(c, p, key, first, draw, j);
    hide Effect, ChangeWrites, Guards, NewRow, UploadedFiles;
    TailPermitted(db, c, p, key, first, draw, 2 + j);
    SoundRowGuards(db.contents[c.id], At(db, ChangeWrites(c, p, key, first, draw), 2 + j).contents[c.id]);
  }

  lemma InsertInTail(c: Content, p: UpdateParams, key: Option<Dek>, first: nat, draw: Draw, j: nat)
    requires p.Replaces() && j < |UploadedFiles(p.upload).files|
    ensures var ws := ChangeWrites(c, p, key, first, draw);
            && 2 + j < |ws|
            && ws[2 + j] ==
               InsertFile(NewRow(c.id, c.slug, key, UploadedFiles(p.upload).files[j], draw.fileNonce(first + j)))
  {
    var inserts := Inserts(c.id, c.slug, key, UploadedFiles(p.upload).files, first, draw);
    assert ChangeWrites(c, p, key, first, draw)[2 + j] == inserts[j];
  }

  lemma SoundRowGuards(row: ContentRow, row': ContentRow)
    requires SoundRow(row) && SameEntry(row, row')
    ensures Guards(row', KeyOf(row))
  {
    EncryptedReadingsAgree(0, row);
    if EnvelopeOf(row).Some? {
      UnwrapForEntry(row, PassphraseOf(row).value);
    }
  }
}
