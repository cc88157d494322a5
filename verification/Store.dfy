/** The content tables, the six writes the program makes to them, and the store that carries them out. */
module Store {
  import opened Wrappers
  import opened ByteStrings
  import opened Sealing

  datatype ContentRow = ContentRow(
    slug: GoString, owner: string, title: string, sourceUrl: string, creator: string, allowExternal: bool,
    encKdf: Option<string>, encSalt: Option<seq<Byte>>, encWrapped: Option<Blob>)

  datatype FileRow = FileRow(contentId: nat, path: GoString, data: Blob, contentType: string)

  datatype Db = Db(contents: map<nat, ContentRow>, files: map<nat, FileRow>, nextContent: nat, nextFile: nat)

  /** A content entry as a query returns it. */
  datatype Content = Content(
    id: nat, slug: GoString, owner: string, title: string, sourceUrl: string, creator: string, allowExternal: bool,
    encryption: Option<Envelope>)

  // ----- The encryption columns -----------------------------------------------------------------------

  datatype Columns = Columns(kdf: Option<string>, salt: Option<seq<Byte>>, wrapped: Option<Blob>)

  function EncColumns(env: Option<Envelope>): Columns {
    match env
    case None => Columns(None, None, None)
    case Some(e) => Columns(Some(e.kdf), Some(e.salt), Some(e.wrapped))
  }

  function WithColumns(row: ContentRow, env: Option<Envelope>): ContentRow {
    var c := EncColumns(env);
    row.(encKdf := c.kdf, encSalt := c.salt, encWrapped := c.wrapped)
  }

  function ScanEncryption(row: ContentRow): Result<Option<Envelope>, Error> {
    if row.encKdf.None? || row.encKdf.value == "" then Ok(None)
    else if row.encSalt.None? || row.encSalt.value == [] then Err(IncompleteEnvelope)
    else if row.encWrapped.None? || row.encWrapped.value == Bytes([]) then Err(IncompleteEnvelope)
    else Ok(Some(Envelope(row.encKdf.value, row.encSalt.value, row.encWrapped.value)))
  }

  function ScanContent(id: nat, row: ContentRow): Result<Content, Error> {
    match ScanEncryption(row)
    case Err(e) => Err(e)
    case Ok(env) =>
      Ok(Content(id, row.slug, row.owner, row.title, row.sourceUrl, row.creator, row.allowExternal, env))
  }

  function RowOf(c: Content): ContentRow {
    WithColumns(ContentRow(c.slug, c.owner, c.title, c.sourceUrl, c.creator, c.allowExternal, None, None, None),
                c.encryption)
  }

  /** What the file query selects as its "encrypted" column. */
  predicate MarkedEncrypted(row: ContentRow) {
    row.encKdf.Some?
  }

  // ----- Lookups ----------------------------------------------------------------------------------------

  function Ids(db: Db, slug: GoString): set<nat> {
    set id | id in db.contents && db.contents[id].slug == slug
  }

  function Rows(db: Db, id: nat): set<nat> {
    set f | f in db.files && db.files[f].contentId == id
  }

  /** The file rows the join on slug and path selects. */
  function Hits(db: Db, slug: GoString, path: GoString): set<nat> {
    set f | f in db.files && db.files[f].path == path
            && db.files[f].contentId in db.contents && db.contents[db.files[f].contentId].slug == slug
  }

  /** What the join selects for one file row: the row, the entry's flag and the "encrypted" column. */
  function Joined(db: Db, f: nat): (FileRow, bool, bool)
    requires f in db.files && db.files[f].contentId in db.contents
  {
    var row := db.contents[db.files[f].contentId];
    (db.files[f], row.allowExternal, MarkedEncrypted(row))
  }

  /** Primary keys, the unique slug and the foreign key. */
  ghost predicate Constrained(db: Db) {
    && (forall id :: id in db.contents ==> id < db.nextContent)
    && (forall f :: f in db.files ==> f < db.nextFile && db.files[f].contentId in db.contents)
    && forall i, j :: i in db.contents && j in db.contents && db.contents[i].slug == db.contents[j].slug ==> i == j
  }

  // ----- Writes -----------------------------------------------------------------------------------------

  datatype Write =
    | InsertContent(row: ContentRow)
    | SetMetadata(id: nat, title: string, sourceUrl: string, creator: string, allowExternal: bool)
    | SwapEncryption(id: nat, env: Option<Envelope>, rewritten: map<nat, Blob>)
    | RemoveContent(id: nat)
    | InsertFile(file: FileRow)
    | RemoveFiles(id: nat)

  /** The constraints the database checks before it takes a write. */
  ghost predicate Accepts(db: Db, w: Write) {
    match w
    case InsertContent(row) => Ids(db, row.slug) == {}
    case InsertFile(file) => file.contentId in db.contents
    case _ => true
  }

  function Rewritten(files: map<nat, FileRow>, id: nat, payloads: map<nat, Blob>): map<nat, FileRow> {
    map f | f in files :: if f in payloads && files[f].contentId == id then files[f].(data := payloads[f]) else files[f]
  }

  function SetEncryption(contents: map<nat, ContentRow>, id: nat, env: Option<Envelope>): map<nat, ContentRow> {
    if id in contents then contents[id := WithColumns(contents[id], env)] else contents
  }

  function Without(files: map<nat, FileRow>, id: nat): map<nat, FileRow> {
    map f | f in files && files[f].contentId != id :: files[f]
  }

  /** The tables after a write the database accepts. */
  function Effect(db: Db, w: Write): Db {
    match w
    case InsertContent(row) =>
      db.(contents := db.contents[db.nextContent := row], nextContent := db.nextContent + 1)
    case SetMetadata(id, title, sourceUrl, creator, allowExternal) =>
      if id !in db.contents then db else
      db.(contents := db.contents[id := db.contents[id].(title := title, sourceUrl := sourceUrl, creator := creator,
                                                         allowExternal := allowExternal)])
    case SwapEncryption(id, env, rewritten) =>
      db.(contents := SetEncryption(db.contents, id, env), files := Rewritten(db.files, id, rewritten))
    case RemoveContent(id) =>
      db.(contents := db.contents - {id}, files := Without(db.files, id))
    case InsertFile(file) =>
      db.(files := db.files[db.nextFile := file], nextFile := db.nextFile + 1)
    case RemoveFiles(id) =>
      db.(files := Without(db.files, id))
  }

  /** The tables after the first k writes of ws: what a crash between two statements leaves behind. */
  function At(db: Db, ws: seq<Write>, k: nat): Db
    requires k <= |ws|
  {
    if k == 0 then db else Effect(At(db, ws, k - 1), ws[k - 1])
  }

  function After(db: Db, ws: seq<Write>): Db {
    At(db, ws, |ws|)
  }

  /** The tables after each of the first k writes, oldest first. */
  ghost function TrailOf(db: Db, ws: seq<Write>, k: nat): seq<Db>
    requires k <= |ws|
  {
    if k == 0 then [] else TrailOf(db, ws, k - 1) + [At(db, ws, k)]
  }

  /** Only the first k writes matter. */
  lemma {:induction false} AtPrefix(db: Db, ws: seq<Write>, vs: seq<Write>, k: nat)
    requires k <= |ws| && k <= |vs| && forall i :: 0 <= i < k ==> ws[i] == vs[i]
    ensures At(db, ws, k) == At(db, vs, k) && TrailOf(db, ws, k) == TrailOf(db, vs, k)
  {
    if k > 0 {
      AtPrefix(db, ws, vs, k - 1);
    }
  }

  lemma {:induction false} AtConcat(db: Db, ws: seq<Write>, vs: seq<Write>, k: nat)
    requires k <= |vs|
    ensures At(db, ws + vs, |ws| + k) == At(After(db, ws), vs, k)
    ensures TrailOf(db, ws + vs, |ws| + k) == TrailOf(db, ws, |ws|) + TrailOf(After(db, ws), vs, k)
  {
    if k == 0 {
      AtPrefix(db, ws + vs, ws, |ws|);
    } else {
      AtConcat(db, ws, vs, k - 1);
    }
  }

  lemma EffectKeepsConstraints(db: Db, w: Write)
    requires Constrained(db) && Accepts(db, w)
    ensures Constrained(Effect(db, w))
  {
    if w.InsertContent? {
      assert forall i :: i in db.contents && db.contents[i].slug == w.row.slug ==> i in Ids(db, w.row.slug);
    }
  }

  lemma SwapEffect(db: Db, id: nat, env: Option<Envelope>, payloads: map<nat, Blob>)
    ensures Effect(db, SwapEncryption(id, env, payloads)) ==
            Db(SetEncryption(db.contents, id, env), Rewritten(db.files, id, payloads), db.nextContent, db.nextFile)
  {
  }

  lemma RewriteNone(files: map<nat, FileRow>, id: nat, payloads: map<nat, Blob>)
    ensures Rewritten(files, id, payloads - payloads.Keys) == files
  {
  }

  lemma RewriteAll(payloads: map<nat, Blob>, todo: set<nat>)
    requires todo == {}
    ensures payloads - todo == payloads
  {
  }

  lemma RewriteOne(files: map<nat, FileRow>, id: nat, payloads: map<nat, Blob>, todo: set<nat>, f: nat)
    requires f in todo && f in payloads
    ensures var done := Rewritten(files, id, payloads - todo);
            Rewritten(files, id, payloads - (todo - {f})) ==
            if f in done && done[f].contentId == id then done[f := done[f].(data := payloads[f])] else done
  {
  }

  /** Flattening and scanning are inverse exactly on complete envelopes. */
  lemma ScanFlatten(c: Content)
    ensures ScanContent(c.id, RowOf(c)) == Ok(c) <==>
            c.encryption.Some? ==>
              c.encryption.value.kdf != "" && c.encryption.value.salt != [] && c.encryption.value.wrapped != Bytes([])
  {
  }

  // ----- The store ----------------------------------------------------------------------------------------

  /** The write happened, and it was the only thing that happened. */
  ghost predicate Landed(before: Db, trail: seq<Db>, after: Db, trail': seq<Db>, w: Write) {
    after == Effect(before, w) && trail' == trail + [after]
  }

  class Database {
    var contents: map<nat, ContentRow>
    var files: map<nat, FileRow>
    var nextContent: nat
    var nextFile: nat
    /** A reliable database reports success for every statement it accepts. */
    const reliable: bool
    /** The tables after every write so far, oldest first. */
    ghost var trail: seq<Db>

    function View(): Db
      reads this
    {
      Db(contents, files, nextContent, nextFile)
    }

    ghost predicate Valid()
      reads this
    {
      Constrained(View())
    }

    constructor (reliable: bool)
      ensures Valid() && View() == Db(map[], map[], 1, 1) && trail == [] && this.reliable == reliable
    {
      contents, files, nextContent, nextFile := map[], map[], 1, 1;
      this.reliable := reliable;
      trail := [];
    }

    method CreateContent(c: Content) returns (ok: bool, id: nat)
      requires Valid()
      modifies this
      ensures Valid()
      ensures || Landed(old(View()), old(trail), View(), trail, InsertContent(RowOf(c)))
              || (View() == old(View()) && trail == old(trail))
      ensures ok ==> Landed(old(View()), old(trail), View(), trail, InsertContent(RowOf(c))) && id == old(nextContent)
      ensures reliable && Accepts(old(View()), InsertContent(RowOf(c))) ==> ok
    {
      id := nextContent;
      var fate := Decide(reliable);
      if fate == Lost || Ids(View(), c.slug) != {} {
        return false, id;
      }
      EffectKeepsConstraints(View(), InsertContent(RowOf(c)));
      contents := contents[nextContent := RowOf(c)];
      nextContent := nextContent + 1;
      trail := trail + [View()];
      ok := fate == Success;
    }

    method UpdateContent(c: Content) returns (ok: bool)
      requires Valid()
      modifies this
      ensures Valid()
      ensures var w := SetMetadata(c.id, c.title, c.sourceUrl, c.creator, c.allowExternal);
              || Landed(old(View()), old(trail), View(), trail, w)
              || (!ok && View() == old(View()) && trail == old(trail))
      ensures reliable ==> ok
    {
      ghost var w := SetMetadata(c.id, c.title, c.sourceUrl, c.creator, c.allowExternal);
      var fate := Decide(reliable);
      if fate == Lost {
        return false;
      }
      EffectKeepsConstraints(View(), w);
      if c.id in contents {
        contents := contents[c.id := contents[c.id].(title := c.title, sourceUrl := c.sourceUrl, creator := c.creator,
                                                     allowExternal := c.allowExternal)];
      }
      trail := trail + [View()];
      ok := fate == Success;
    }

    /**
     * One transaction: the columns, then one statement per payload in any order, then the commit. A statement
     * that does not succeed rolls the transaction back; only the commit can take effect without being reported.
     */
    method ApplyEncryption(id: nat, env: Option<Envelope>, rewritten: map<nat, Blob>) returns (ok: bool)
      requires Valid()
      modifies this
      ensures Valid()
      ensures || Landed(old(View()), old(trail), View(), trail, SwapEncryption(id, env, rewritten))
              || (!ok && View() == old(View()) && trail == old(trail))
      ensures reliable ==> ok
    {
      hide Constrained, SetEncryption, Rewritten, Effect;
      SwapEffect(View(), id, env, rewritten);
      var fate := Decide(reliable);
      if fate != Success {
        return false;
      }
      fate := Decide(reliable);
      if fate != Success {
        return false;
      }
      var txContents := SetEncryption(contents, id, env);
      var txFiles := files;
      var todo := rewritten.Keys;
      RewriteNone(files, id, rewritten);
      while todo != {}
        invariant Valid() && View() == old(View()) && trail == old(trail)
        invariant todo <= rewritten.Keys
        invariant txFiles == Rewritten(files, id, rewritten - todo)
        decreases |todo|
      {
        var f :| f in todo;
        fate := Decide(reliable);
        if fate != Success {
          return false;
        }
        RewriteOne(files, id, rewritten, todo, f);
        if f in txFiles && txFiles[f].contentId == id {
          txFiles := txFiles[f := txFiles[f].(data := rewritten[f])];
        }
        todo := todo - {f};
      }
      RewriteAll(rewritten, todo);
      fate := Decide(reliable);
      if fate == Lost {
        return false;
      }
      EffectKeepsConstraints(View(), SwapEncryption(id, env, rewritten));
      contents, files := txContents, txFiles;
      trail := trail + [View()];
      ok := fate == Success;
    }

    method DeleteContent(id: nat) returns (ok: bool)
      requires Valid()
      modifies this
      ensures Valid()
      ensures || Landed(old(View()), old(trail), View(), trail, RemoveContent(id))
              || (!ok && View() == old(View()) && trail == old(trail))
      ensures reliable ==> ok
    {
      var fate := Decide(reliable);
      if fate == Lost {
        return false;
      }
      EffectKeepsConstraints(View(), RemoveContent(id));
      contents := contents - {id};
      files := Without(files, id);
      trail := trail + [View()];
      ok := fate == Success;
    }

    method CreateContentFile(file: FileRow) returns (ok: bool)
      requires Valid()
      modifies this
      ensures Valid()
      ensures || Landed(old(View()), old(trail), View(), trail, InsertFile(file))
              || (!ok && View() == old(View()) && trail == old(trail))
      ensures reliable && Accepts(old(View()), InsertFile(file)) ==> ok
    {
      var fate := Decide(reliable);
      if fate == Lost || file.contentId !in contents {
        return false;
      }
      EffectKeepsConstraints(View(), InsertFile(file));
      files := files[nextFile := file];
      nextFile := nextFile + 1;
      trail := trail + [View()];
      ok := fate == Success;
    }

    method DeleteContentFiles(id: nat) returns (ok: bool)
      requires Valid()
      modifies this
      ensures Valid()
      ensures || Landed(old(View()), old(trail), View(), trail, RemoveFiles(id))
              || (!ok && View() == old(View()) && trail == old(trail))
      ensures reliable ==> ok
    {
      var fate := Decide(reliable);
      if fate == Lost {
        return false;
      }
      EffectKeepsConstraints(View(), RemoveFiles(id));
      files := Without(files, id);
      trail := trail + [View()];
      ok := fate == Success;
    }

    method SlugExists(slug: GoString) returns (r: Result<bool, Error>)
      ensures r.Ok? ==> (r.value <==> Ids(View(), slug) != {})
      ensures r.Err? ==> r.error == StorageFailure
      ensures reliable ==> r.Ok?
    {
      var fate := Decide(reliable);
      r := if fate == Success then Ok(Ids(View(), slug) != {}) else Err(StorageFailure);
    }

    method GetContentBySlug(slug: GoString) returns (r: Result<Content, Error>)
      ensures r.Ok? ==> r.value.id in Ids(View(), slug) && r == ScanContent(r.value.id, contents[r.value.id])
      ensures r == Err(NotFound) ==> Ids(View(), slug) == {}
      ensures r.Err? ==> r.error in {NotFound, StorageFailure, IncompleteEnvelope}
      ensures r == Err(IncompleteEnvelope) ==>
                exists id :: id in Ids(View(), slug) && ScanContent(id, contents[id]) == r
      ensures reliable ==> r != Err(StorageFailure)
    {
      var fate := Decide(reliable);
      if fate != Success {
        return Err(StorageFailure);
      }
      var ids := Ids(View(), slug);
      if ids == {} {
        return Err(NotFound);
      }
      var id :| id in ids;
      r := ScanContent(id, contents[id]);
    }

    /** Some row of the join, whichever the database returns first. */
    method GetContentFile(slug: GoString, path: GoString) returns (r: Result<(FileRow, bool, bool), Error>)
      ensures r.Ok? ==> exists f :: f in Hits(View(), slug, path) && r.value == Joined(View(), f)
      ensures r == Err(NotFound) ==> Hits(View(), slug, path) == {}
      ensures r.Err? ==> r.error in {NotFound, StorageFailure}
      ensures reliable ==> r != Err(StorageFailure)
    {
      var fate := Decide(reliable);
      if fate != Success {
        return Err(StorageFailure);
      }
      var hits := Hits(View(), slug, path);
      if hits == {} {
        return Err(NotFound);
      }
      var f :| f in hits;
      r := Ok(Joined(View(), f));
    }

    /** Every file row of an entry with its id, in some order. */
    method ListContentFiles(id: nat) returns (r: Result<seq<(nat, FileRow)>, Error>)
      ensures r.Ok? ==> forall e :: e in r.value ==> e.0 in Rows(View(), id) && e.1 == files[e.0]
      ensures r.Ok? ==> forall f :: f in Rows(View(), id) ==> (f, files[f]) in r.value
      ensures r.Err? ==> r.error == StorageFailure
      ensures reliable ==> r.Ok?
    {
      var fate := Decide(reliable);
      if fate != Success {
        return Err(StorageFailure);
      }
      var todo := Rows(View(), id);
      var listed: seq<(nat, FileRow)> := [];
      while todo != {}
        invariant todo <= Rows(View(), id)
        invariant forall e :: e in listed ==> e.0 in Rows(View(), id) && e.1 == files[e.0]
        invariant forall f :: f in Rows(View(), id) - todo ==> (f, files[f]) in listed
        decreases |todo|
      {
        var f :| f in todo;
        listed := listed + [(f, files[f])];
        todo := todo - {f};
      }
      r := Ok(listed);
    }
  }
}
