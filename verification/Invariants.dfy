/**
 * What holds of the tables between any two statements. Every write a request makes is Permitted in the state
 * it meets; the properties of the store are then read off single permitted writes.
 */
module Invariants {
  import opened Wrappers
  import opened ByteStrings
  import opened Sealing
  import opened Store
  import opened Requests

  // ----- Entries and their keys -----------------------------------------------------------------------------

  /** The data key the entry's envelope holds. */
  function KeyOf(row: ContentRow): Option<Dek> {
    if row.encKdf.None? then None
    else
      match row.encWrapped
      case Some(Box(_, _, _, Bytes(dek))) => if |dek| == KEY_LEN then Some(dek) else None
      case _ => None
  }

  /** The passphrase the entry's envelope was made with. */
  function PassphraseOf(row: ContentRow): Option<string> {
    if row.encKdf.None? then None
    else
      match row.encWrapped
      case Some(Box(Kek(passphrase, _, _), _, _, _)) => Some(passphrase)
      case _ => None
  }

  function EnvelopeOf(row: ContentRow): Option<Envelope> {
    if row.encKdf.Some? && row.encSalt.Some? && row.encWrapped.Some?
    then Some(Envelope(row.encKdf.value, row.encSalt.value, row.encWrapped.value)) else None
  }

  /** The encryption columns are all null, or together the envelope of some passphrase and key for this slug. */
  ghost predicate SoundRow(row: ContentRow) {
    if row.encKdf.None? then row.encSalt.None? && row.encWrapped.None?
    else
      && EnvelopeOf(row).Some? && KeyOf(row).Some? && PassphraseOf(row).Some?
      && Wraps(EnvelopeOf(row).value, PassphraseOf(row).value, KeyOf(row).value, row.slug)
  }

  ghost predicate WellFormed(db: Db) {
    Constrained(db) && forall id :: id in db.contents ==> SoundRow(db.contents[id])
  }

  /** The payload is plain for a public entry, and sealed under the entry's key for its own place otherwise. */
  predicate Agrees(row: ContentRow, file: FileRow) {
    var plain := Decode(KeyOf(row), row.slug, file.path, file.data);
    plain.Some? && plain.value.Bytes?
  }

  ghost predicate Consistent(db: Db, id: nat) {
    id in db.contents ==>
      forall f :: f in db.files && db.files[f].contentId == id ==> Agrees(db.contents[id], db.files[f])
  }

  /** The entry that a slug names, if it names one, is consistent. */
  ghost predicate SlugConsistent(db: Db, slug: GoString) {
    forall id :: id in Ids(db, slug) ==> Consistent(db, id)
  }

  ghost predicate Healthy(db: Db) {
    WellFormed(db) && forall id :: id in db.contents ==> Consistent(db, id)
  }

  /** Both ways of asking whether an entry is encrypted give the answer that its envelope gives. */
  lemma EncryptedReadingsAgree(id: nat, row: ContentRow)
    requires SoundRow(row)
    ensures var c := Content(id, row.slug, row.owner, row.title, row.sourceUrl, row.creator, row.allowExternal,
                             EnvelopeOf(row));
            ScanContent(id, row) == Ok(c) && RowOf(c) == row
    ensures MarkedEncrypted(row) <==> EnvelopeOf(row).Some?
    ensures row.encKdf.Some? == row.encSalt.Some? == row.encWrapped.Some? == KeyOf(row).Some? == PassphraseOf(row).Some?
  {
  }

  lemma LoadFinds(db: Db, slug: GoString, id: nat)
    requires WellFormed(db) && id in db.contents && db.contents[id].slug == slug
    ensures var row := db.contents[id];
            Load(db, slug) ==
            Ok(Content(id, slug, row.owner, row.title, row.sourceUrl, row.creator, row.allowExternal, EnvelopeOf(row)))
  {
    assert id in Ids(db, slug);
    EncryptedReadingsAgree(id, db.contents[id]);
  }

  lemma LoadMisses(db: Db, slug: GoString)
    requires WellFormed(db)
    ensures Load(db, slug).Err? ==> Load(db, slug) == Err(NotFound) && Ids(db, slug) == {}
    ensures Load(db, slug).Ok? ==> Load(db, slug).value.id in Ids(db, slug)
  {
    if Ids(db, slug) != {} {
      var id :| id in Ids(db, slug);
      LoadFinds(db, slug, id);
    }
  }

  // ----- Permitted writes ---------------------------------------------------------------------------------------

  predicate OwnedBy(db: Db, id: nat, who: string) {
    id in db.contents && db.contents[id].owner == who
  }

  /** A payload moved from one key to another keeps what it decodes to. */
  predicate Recoded(oldKey: Option<Dek>, newKey: Option<Dek>, slug: GoString, file: FileRow, payload: Blob) {
    var plain := Decode(oldKey, slug, file.path, file.data);
    plain.Some? && Decode(newKey, slug, file.path, payload) == plain
  }

  /** The entry has no key, or the one drawn for this request. */
  predicate KeyIsFresh(row: ContentRow, dek: Dek) {
    KeyOf(row).None? || KeyOf(row) == Some(dek)
  }

  ghost predicate SwapPermitted(db: Db, id: nat, env: Option<Envelope>, rewritten: map<nat, Blob>, who: string,
                                dek: Dek) {
    && OwnedBy(db, id, who)
    && var row, row' := db.contents[id], WithColumns(db.contents[id], env);
    && SoundRow(row') && KeyIsFresh(row', dek)
    && (rewritten.Keys == Rows(db, id) || rewritten == map[])
    && (forall f :: f in rewritten && f in db.files ==>
          Recoded(KeyOf(row), KeyOf(row'), row.slug, db.files[f], rewritten[f]))
  }

  /** What `who` may write to the tables db with a request that drew dek. */
  ghost predicate Permitted(db: Db, w: Write, who: string, dek: Dek) {
    match w
    case InsertContent(row) => Ids(db, row.slug) == {} && row.owner == who && SoundRow(row) && KeyIsFresh(row, dek)
    case SetMetadata(id, _, _, _, _) => OwnedBy(db, id, who)
    case SwapEncryption(id, env, rewritten) => SwapPermitted(db, id, env, rewritten, who, dek)
    case RemoveContent(id) => OwnedBy(db, id, who)
    case InsertFile(file) => OwnedBy(db, file.contentId, who) && Agrees(db.contents[file.contentId], file)
    case RemoveFiles(id) => OwnedBy(db, id, who)
  }

  /** Each of the first k writes is permitted in the state it meets. */
  ghost predicate PermittedUpTo(db: Db, ws: seq<Write>, who: string, dek: Dek, k: nat)
    requires k <= |ws|
  {
    k > 0 ==> PermittedUpTo(db, ws, who, dek, k - 1) && Permitted(At(db, ws, k - 1), ws[k - 1], who, dek)
  }

  ghost predicate PlanPermitted(db: Db, ws: seq<Write>, who: string, dek: Dek) {
    PermittedUpTo(db, ws, who, dek, |ws|)
  }

  lemma {:induction false} PermittedEarlier(db: Db, ws: seq<Write>, who: string, dek: Dek, k: nat, j: nat)
    requires j <= k <= |ws| && PermittedUpTo(db, ws, who, dek, k)
    ensures PermittedUpTo(db, ws, who, dek, j)
  {
    if j < k {
      PermittedEarlier(db, ws, who, dek, k - 1, j);
    }
  }

  lemma PermittedKeepsForm(db: Db, w: Write, who: string, dek: Dek)
    requires WellFormed(db) && Permitted(db, w, who, dek)
    ensures WellFormed(Effect(db, w)) && Accepts(db, w)
  {
    EffectKeepsConstraints(db, w);
  }

  lemma {:induction false} PlanKeepsForm(db: Db, ws: seq<Write>, who: string, dek: Dek, k: nat)
    requires k <= |ws| && WellFormed(db) && PermittedUpTo(db, ws, who, dek, k)
    ensures WellFormed(At(db, ws, k))
  {
    if k > 0 {
      PlanKeepsForm(db, ws, who, dek, k - 1);
      PermittedKeepsForm(At(db, ws, k - 1), ws[k - 1], who, dek);
    }
  }

  lemma {:induction false} PermittedPrefix(db: Db, ws: seq<Write>, all: seq<Write>, who: string, dek: Dek, k: nat)
    requires k <= |ws| && ws <= all && PermittedUpTo(db, ws, who, dek, k)
    ensures PermittedUpTo(db, all, who, dek, k)
  {
    if k > 0 {
      PermittedPrefix(db, ws, all, who, dek, k - 1);
      AtPrefix(db, ws, all, k - 1);
    }
  }

  lemma {:induction false} PermittedConcat(db: Db, ws: seq<Write>, vs: seq<Write>, who: string, dek: Dek, k: nat)
    requires k <= |vs| && PlanPermitted(db, ws, who, dek) && PermittedUpTo(After(db, ws), vs, who, dek, k)
    ensures PermittedUpTo(db, ws + vs, who, dek, |ws| + k)
  {
    if k == 0 {
      PermittedPrefix(db, ws, ws + vs, who, dek, |ws|);
    } else {
      PermittedConcat(db, ws, vs, who, dek, k - 1);
      AtConcat(db, ws, vs, k - 1);
    }
  }

  // ----- The key and the envelope ----------------------------------------------------------------------------------

  /** The current passphrase, and nothing else, gives the entry's key. */
  lemma UnwrapForEntry(row: ContentRow, passphrase: string)
    requires SoundRow(row) && EnvelopeOf(row).Some?
    ensures UnwrapFor(EnvelopeOf(row).value, passphrase, row.slug) ==
            if passphrase == "" then Err(PassphraseRequired)
            else if Some(passphrase) == PassphraseOf(row) then Ok(KeyOf(row).value)
            else Err(WrongPassphrase)
  {
    UnwrapExact(EnvelopeOf(row).value, PassphraseOf(row).value, KeyOf(row).value, row.slug, passphrase, row.slug);
  }

  /** The content a request works on: the stored row with the request's metadata. */
  ghost predicate Stands(db: Db, c: Content) {
    && c.id in db.contents
    && var row := db.contents[c.id];
    c.slug == row.slug && c.owner == row.owner && c.encryption == EnvelopeOf(row)
  }

  /** A fresh envelope for a passphrase turns the row into a sound one that holds the drawn key. */
  lemma NewEnvelopeSound(row: ContentRow, passphrase: string, draw: Draw)
    requires passphrase != ""
    ensures var r := NewEnvelope(passphrase, row.slug, draw);
            && r.Ok? && r.value.1 == draw.dek
            && var row' := WithColumns(row, Some(r.value.0));
            SoundRow(row') && KeyOf(row') == Some(draw.dek) && PassphraseOf(row') == Some(passphrase)
  {
    NewEnvelopeWraps(passphrase, row.slug, draw);
  }

  lemma ReencodedPermitted(db: Db, c: Content, env: Option<Envelope>, oldKey: Option<Dek>, newKey: Option<Dek>,
                           replacing: bool, draw: Draw)
    requires WellFormed(db) && Stands(db, c)
    requires oldKey == KeyOf(db.contents[c.id])
    requires var row' := WithColumns(db.contents[c.id], env);
             SoundRow(row') && KeyOf(row') == newKey && KeyIsFresh(row', draw.dek)
    requires SwapTo(db, c, oldKey, env, newKey, replacing, draw).Ok?
    ensures var w := SwapTo(db, c, oldKey, env, newKey, replacing, draw).value.writes[0];
            Permitted(db, w, c.owner, draw.dek)
  {
  }

  /** A successful encryption change: its write is permitted, and its key is the key of the resulting envelope. */
  lemma ChangePermitted(db: Db, c: Content, p: UpdateParams, draw: Draw)
    requires WellFormed(db) && Stands(db, c)
    requires EncryptionChange(db, c, p, draw).Ok?
    ensures var change := EncryptionChange(db, c, p, draw).value;
            && PlanPermitted(db, change.writes, c.owner, draw.dek)
            && var db' := After(db, change.writes);
            && c.id in db'.contents && SoundRow(db'.contents[c.id])
            && EnvelopeOf(db'.contents[c.id]) == change.encryption
            && (p.Replaces() ==> change.key == KeyOf(db'.contents[c.id]))
  {
    var row := db.contents[c.id];
    var change := EncryptionChange(db, c, p, draw).value;
    if c.encryption.Some? {
      UnwrapForEntry(row, p.passphrase);
    }
    if change.writes != [] {
      var next := if c.encryption.None? then p.passphrase else p.newPassphrase;
      if p.removeEncryption {
        ReencodedPermitted(db, c, None, KeyOf(row), None, p.Replaces(), draw);
      } else {
        NewEnvelopeSound(row, next, draw);
        ReencodedPermitted(db, c, change.encryption, KeyOf(row), Some(draw.dek), p.Replaces(), draw);
      }
      OneWrite(db, change.writes[0]);
      assert change.writes == [change.writes[0]];
    }
  }

  lemma OneWrite(db: Db, w: Write)
    ensures At(db, [w], 0) == db && After(db, [w]) == Effect(db, w)
  {
  }

  // ----- Updates ----------------------------------------------------------------------------------------------------

  /** What the tail of an update leaves as it is in the entry's row. */
  predicate SameEntry(row: ContentRow, row': ContentRow) {
    && row'.slug == row.slug && row'.owner == row.owner
    && row'.encKdf == row.encKdf && row'.encSalt == row.encSalt && row'.encWrapped == row.encWrapped
  }

  /** Each write of the tail is permitted as long as the entry is what it was, and leaves it so. */
  lemma TailWritePermitted(db: Db, row: ContentRow, c: Content, p: UpdateParams, key: Option<Dek>, first: nat,
                           draw: Draw, i: nat)
    requires c.id in db.contents && SameEntry(row, db.contents[c.id]) && c.slug == row.slug && c.owner == row.owner
    requires (p.Replaces() ==> key == KeyOf(row)) && i < |ChangeWrites(c, p, key, first, draw)|
    ensures var w := ChangeWrites(c, p, key, first, draw)[i];
            && Permitted(db, w, c.owner, draw.dek)
            && c.id in Effect(db, w).contents && SameEntry(row, Effect(db, w).contents[c.id])
  {
  }

  lemma {:induction false} TailPermitted(db: Db, c: Content, p: UpdateParams, key: Option<Dek>, first: nat,
                                         draw: Draw, k: nat)
    requires c.id in db.contents && c.slug == db.contents[c.id].slug && c.owner == db.contents[c.id].owner
    requires p.Replaces() ==> key == KeyOf(db.contents[c.id])
    requires k <= |ChangeWrites(c, p, key, first, draw)|
    ensures var ws := ChangeWrites(c, p, key, first, draw);
            && PermittedUpTo(db, ws, c.owner, draw.dek, k)
            && c.id in At(db, ws, k).contents && SameEntry(db.contents[c.id], At(db, ws, k).contents[c.id])
  {
    hide ChangeWrites, Permitted, Effect;
    if k > 0 {
      TailPermitted(db, c, p, key, first, draw, k - 1);
      TailWritePermitted(At(db, ChangeWrites(c, p, key, first, draw), k - 1), db.contents[c.id], c, p, key, first,
                         draw, k - 1);
    }
  }

  lemma ChangeThenTail(db: Db, c: Content, p: UpdateParams, change: Change, draw: Draw)
    requires PlanPermitted(db, change.writes, c.owner, draw.dek)
    requires var db' := After(db, change.writes);
             && c.id in db'.contents && db'.contents[c.id].slug == c.slug && db'.contents[c.id].owner == c.owner
             && (p.Replaces() ==> change.key == KeyOf(db'.contents[c.id]))
    ensures PlanPermitted(db, change.writes + ChangeWrites(c, p, change.key, db.nextFile, draw), c.owner, draw.dek)
  {
    hide ChangeWrites, Effect, KeyOf;
    var tail := ChangeWrites(c, p, change.key, db.nextFile, draw);
    TailPermitted(After(db, change.writes), c, p, change.key, db.nextFile, draw, |tail|);
    PermittedConcat(db, change.writes, tail, c.owner, draw.dek, |tail|);
  }

  lemma ChangePlanPermitted(db: Db, c: Content, p: UpdateParams, draw: Draw)
    requires WellFormed(db) && Stands(db, c)
    ensures PlanPermitted(db, ChangePlan(db, c, p, draw).writes, c.owner, draw.dek)
  {
    var planned := EncryptionChange(db, c, p, draw);
    if planned.Ok? {
      ChangePermitted(db, c, p, draw);
      SwapKeepsIdentity(db, c, p, draw);
      ChangeThenTail(db, c.(encryption := planned.value.encryption), p, planned.value, draw);
    }
  }

  lemma SwapKeepsIdentity(db: Db, c: Content, p: UpdateParams, draw: Draw)
    requires EncryptionChange(db, c, p, draw).Ok? && c.id in db.contents
    ensures var db' := After(db, EncryptionChange(db, c, p, draw).value.writes);
            && c.id in db'.contents && db'.contents[c.id].slug == db.contents[c.id].slug
            && db'.contents[c.id].owner == db.contents[c.id].owner && db'.nextFile == db.nextFile
  {
    var ws := EncryptionChange(db, c, p, draw).value.writes;
    if ws != [] {
      OneWrite(db, ws[0]);
      assert ws == [ws[0]];
    }
  }

  lemma OwnedStands(db: Db, slug: GoString, owner: string)
    requires WellFormed(db) && Owned(db, slug, owner).Ok?
    ensures var c := Owned(db, slug, owner).value;
            Stands(db, c) && c.slug == slug && c.owner == owner && c.id in Ids(db, slug)
  {
    LoadMisses(db, slug);
    LoadFinds(db, slug, Load(db, slug).value.id);
  }

  lemma UpdatePermitted(db: Db, p: UpdateParams, draw: Draw)
    requires WellFormed(db)
    ensures PlanPermitted(db, UpdatePlan(db, p, draw).writes, p.owner, draw.dek)
  {
    if Owned(db, p.slug, p.owner).Ok? {
      OwnedStands(db, p.slug, p.owner);
      ChangePlanPermitted(db, WithMetadata(Owned(db, p.slug, p.owner).value, p), p, draw);
    }
  }

  // ----- Creations and deletions ------------------------------------------------------------------------------------

  lemma NewContentSound(p: CreateParams, id: nat, draw: Draw)
    ensures var row := RowOf(NewContent(p, id, draw));
            && SoundRow(row) && KeyOf(row) == NewKey(p, draw) && KeyIsFresh(row, draw.dek) && row.owner == p.owner
            && row.slug == p.slug
            && PassphraseOf(row) == (if p.passphrase == "" then None else Some(p.passphrase))
  {
    if p.passphrase != "" {
      NewEnvelopeWraps(p.passphrase, p.slug, draw);
    }
  }

  lemma {:induction false} FillPermitted(db: Db, c: Content, upload: Upload, key: Option<Dek>, first: nat, draw: Draw,
                                         k: nat)
    requires c.id in db.contents && c.slug == db.contents[c.id].slug && c.owner == db.contents[c.id].owner
    requires key == KeyOf(db.contents[c.id])
    requires k <= |FillWrites(c, upload, key, first, draw)|
    ensures var ws := FillWrites(c, upload, key, first, draw);
            && PermittedUpTo(db, ws, c.owner, draw.dek, k)
            && (k <= |UploadedFiles(upload).files| ==> At(db, ws, k).contents == db.contents)
  {
    if k > 0 {
      FillPermitted(db, c, upload, key, first, draw, k - 1);
    }
  }

  /** The entry's row goes in first, and the files are sealed under its key. */
  lemma InsertThenFill(db: Db, c: Content, upload: Upload, draw: Draw)
    requires WellFormed(db) && Ids(db, c.slug) == {} && c.id == db.nextContent
    requires SoundRow(RowOf(c)) && KeyIsFresh(RowOf(c), draw.dek)
    ensures PlanPermitted(db, [InsertContent(RowOf(c))] + FillWrites(c, upload, KeyOf(RowOf(c)), db.nextFile, draw),
                          c.owner, draw.dek)
  {
    hide WellFormed, SoundRow, KeyOf, KeyIsFresh, FillWrites;
    var insert := InsertContent(RowOf(c));
    OneWrite(db, insert);
    var fill := FillWrites(c, upload, KeyOf(RowOf(c)), db.nextFile, draw);
    FillPermitted(Effect(db, insert), c, upload, KeyOf(RowOf(c)), db.nextFile, draw, |fill|);
    hide Effect;
    PermittedConcat(db, [insert], fill, c.owner, draw.dek, |fill|);
  }

  lemma CreatePermitted(db: Db, p: CreateParams, draw: Draw)
    requires WellFormed(db)
    ensures PlanPermitted(db, CreatePlan(db, p, draw).writes, p.owner, draw.dek)
  {
    hide WellFormed, SoundRow, KeyOf, KeyIsFresh, FillWrites, NewKey;
    if CreatePlan(db, p, draw).writes != [] {
      NewContentSound(p, db.nextContent, draw);
      InsertThenFill(db, NewContent(p, db.nextContent, draw), p.upload, draw);
    }
  }

  lemma DeletePermitted(db: Db, slug: GoString, owner: string, dek: Dek)
    requires WellFormed(db)
    ensures PlanPermitted(db, DeletePlan(db, slug, owner).writes, owner, dek)
  {
    if Owned(db, slug, owner).Ok? {
      OwnedStands(db, slug, owner);
    }
  }
}
