/**
 * Which keys the payloads of an entry lie under, over whole runs. All files of an entry share one pile of layers; a
 * small machine computes it from the requests and from where each of them stopped, without looking at the tables. What
 * is in step, what is revoked and who can read follows from it exactly.
 */
module Custody {
  import opened Wrappers
  import opened ByteStrings
  import opened Sealing
  import opened Store
  import opened Requests
  import opened Invariants
  import opened Runs
  import opened Crashes
  import opened Readers
  import opened Revocation
  import Paths

  // ----- Layers ---------------------------------------------------------------------------------------------------

  /** The blob is a plaintext under these layers, outermost first, each sealed for the same place. */
  predicate Layered(blob: Blob, slug: GoString, path: GoString, layers: seq<Dek>)
    decreases |layers|
  {
    if layers == [] then blob.Bytes?
    else
      && blob.Box? && blob.key == DataKey(layers[0]) && blob.aad == FileAad(slug, path)
      && Layered(blob.contents, slug, path, layers[1..])
  }

  /** The one layer that an envelope with this key calls for. */
  function Layer(key: Option<Dek>): seq<Dek> {
    if key.None? then [] else [key.value]
  }

  lemma AgreesIsOneLayer(row: ContentRow, file: FileRow)
    ensures Agrees(row, file) <==> Layered(file.data, row.slug, file.path, Layer(KeyOf(row)))
  {
    if KeyOf(row).Some? && file.data.Box? {
      assert Layer(KeyOf(row))[1..] == [];
    }
  }

  lemma {:induction false} LayersUnique(blob: Blob, slug: GoString, path: GoString, layers: seq<Dek>, layers': seq<Dek>)
    requires Layered(blob, slug, path, layers) && Layered(blob, slug, path, layers')
    ensures layers == layers'
    decreases |layers|
  {
    if layers != [] && layers' != [] {
      LayersUnique(blob.contents, slug, path, layers[1..], layers'[1..]);
      assert layers == [layers[0]] + layers[1..] && layers' == [layers'[0]] + layers'[1..];
    }
  }

  lemma {:induction false} LayersAvoid(blob: Blob, slug: GoString, path: GoString, layers: seq<Dek>, dek: seq<Byte>)
    requires Layered(blob, slug, path, layers)
    ensures Avoids(blob, dek) <==> dek !in layers
    decreases |layers|
  {
    if layers != [] {
      LayersAvoid(blob.contents, slug, path, layers[1..], dek);
      assert layers == [layers[0]] + layers[1..];
    }
  }

  /** Moving a payload to another key takes the old key's layer off and puts the new key's on. */
  lemma RecodedLayers(oldKey: Option<Dek>, newKey: Option<Dek>, slug: GoString, file: FileRow, payload: Blob,
                      layers: seq<Dek>)
    requires Recoded(oldKey, newKey, slug, file, payload) && Layered(file.data, slug, file.path, layers)
    ensures Layer(oldKey) <= layers
    ensures Layered(payload, slug, file.path, Layer(newKey) + layers[|Layer(oldKey)|..])
  {
    var rest := layers[|Layer(oldKey)|..];
    var all := Layer(newKey) + rest;
    if newKey.Some? {
      assert all[1..] == rest;
    } else {
      assert all == rest;
    }
  }

  // ----- The machine ----------------------------------------------------------------------------------------------

  /** An entry's passphrase and key, and the layers its files lie under, if it has files. */
  datatype Custody = Custody(passphrase: Option<string>, key: Option<Dek>, layers: Option<seq<Dek>>)
  {
    predicate InStep() {
      layers.None? || layers.value == Layer(key)
    }

    /** Every file opens with the key, so that they can all be moved to another one. */
    predicate Opens() {
      layers.None? || Layer(key) <= layers.value
    }

    predicate Mentions(dek: seq<Byte>) {
      key == Some(dek) || (layers.Some? && dek in layers.value)
    }

    /** The outermost layer opens with this key. */
    predicate Yields(dek: seq<Byte>) {
      layers.Some? && layers.value != [] && layers.value[0] == dek
    }

    /** The update, if it is accepted, changes the envelope. */
    predicate Changes(p: UpdateParams) {
      if key.None? then !p.removeEncryption && p.newPassphrase == "" && p.passphrase != ""
      else (p.removeEncryption || p.newPassphrase != "") && p.passphrase != "" && Some(p.passphrase) == passphrase
    }

    predicate Accepts(p: UpdateParams) {
      && (if key.None? then !p.removeEncryption && p.newPassphrase == ""
          else p.removeEncryption || p.newPassphrase != "" || p.Replaces() ==>
                 p.passphrase != "" && Some(p.passphrase) == passphrase)
      && (Changes(p) && !p.Replaces() ==> Opens())
    }

    /** How many statements the update makes. */
    function Statements(p: UpdateParams): nat {
      if !Accepts(p) then 0
      else SwapCount(p) + 1 + if p.Replaces() then 1 + |UploadedFiles(p.upload).files| else 0
    }

    function SwapCount(p: UpdateParams): nat {
      if Changes(p) then 1 else 0
    }

    /** The files moved from the present key to another. */
    function Relayered(next: Option<Dek>): Option<seq<Dek>> {
      if layers.Some? && Opens() then Some(Layer(next) + layers.value[|Layer(key)|..]) else layers
    }

    /** After the envelope change. */
    function Changed(p: UpdateParams, dek: Dek): Custody {
      var next := if p.removeEncryption then None else Some(dek);
      Custody(if p.removeEncryption then None else if key.None? then Some(p.passphrase) else Some(p.newPassphrase),
              next, if p.Replaces() then layers else Relayered(next))
    }

    /** After k statements of an update. */
    function Updated(p: UpdateParams, dek: Dek, k: nat): Custody {
      var c := if Changes(p) && k > 0 then Changed(p, dek) else this;
      if !p.Replaces() || k < SwapCount(p) + 2 then c
      else if k == SwapCount(p) + 2 then c.(layers := None)
      else c.(layers := Some(Layer(c.key)))
    }
  }

  /** What becomes of an entry of this slug and owner when a request stops after k statements; None when it is gone. */
  function Stopped(c: Custody, slug: GoString, owner: string, r: Request, k: nat): Option<Custody> {
    match r
    case Create(_, _) => Some(c)
    case Update(p, draw) => Some(if p.slug == slug && p.owner == owner then c.Updated(p, draw.dek, k) else c)
    case Delete(s, who, _) => if s == slug && who == owner && k > 0 then None else Some(c)
  }

  /** The entry after the first i requests of a run. */
  function CustodyAt(c: Custody, slug: GoString, owner: string, requests: seq<Request>, stops: seq<Stop>,
                     i: nat): Option<Custody>
    requires i <= |requests| == |stops|
  {
    if i == 0 then Some(c)
    else
      match CustodyAt(c, slug, owner, requests, stops, i - 1)
      case None => None
      case Some(before) => Stopped(before, slug, owner, requests[i - 1], stops[i - 1].after)
  }

  // ----- The machine and the tables ---------------------------------------------------------------------------------

  ghost predicate AllLayered(db: Db, id: nat, layers: seq<Dek>)
    requires id in db.contents
  {
    forall f :: f in Rows(db, id) ==> Layered(db.files[f].data, db.contents[id].slug, db.files[f].path, layers)
  }

  /** The machine's state is that of the stored entry. */
  ghost predicate Holds(db: Db, id: nat, c: Custody) {
    && id in db.contents && PassphraseOf(db.contents[id]) == c.passphrase && KeyOf(db.contents[id]) == c.key
    && (c.layers.None? <==> Rows(db, id) == {})
    && (c.layers.Some? ==> AllLayered(db, id, c.layers.value))
  }

  /** The state of an entry that is in step. */
  ghost function CustodyOf(db: Db, id: nat): (c: Custody)
    requires id in db.contents
    ensures c.InStep()
  {
    var row := db.contents[id];
    Custody(PassphraseOf(row), KeyOf(row), if Rows(db, id) == {} then None else Some(Layer(KeyOf(row))))
  }

  lemma ConsistentHolds(db: Db, id: nat)
    requires id in db.contents && Consistent(db, id)
    ensures Holds(db, id, CustodyOf(db, id))
  {
    forall f | f in Rows(db, id)
      ensures Layered(db.files[f].data, db.contents[id].slug, db.files[f].path, Layer(KeyOf(db.contents[id])))
    {
      AgreesIsOneLayer(db.contents[id], db.files[f]);
    }
  }

  /** An entry is in step exactly when it has no files or their layers are the one its envelope calls for. */
  lemma InStepIsConsistent(db: Db, id: nat, c: Custody)
    requires Holds(db, id, c)
    ensures Consistent(db, id) <==> c.InStep()
  {
    var row := db.contents[id];
    forall f | f in Rows(db, id)
      ensures Agrees(row, db.files[f]) <==> c.layers.value == Layer(KeyOf(row))
    {
      AgreesIsOneLayer(row, db.files[f]);
      if Agrees(row, db.files[f]) {
        LayersUnique(db.files[f].data, row.slug, db.files[f].path, c.layers.value, Layer(KeyOf(row)));
      }
    }
    if c.layers.Some? {
      var f :| f in Rows(db, id);
    }
  }

  /** A key is revoked exactly when neither the envelope nor any layer has it. */
  lemma RevokedIsUnmentioned(db: Db, slug: GoString, id: nat, c: Custody, dek: seq<Byte>)
    requires Constrained(db) && id in Ids(db, slug) && Holds(db, id, c)
    ensures Revoked(db, slug, dek) <==> !c.Mentions(dek)
  {
    hide Layered, Avoids, KeyOf, PassphraseOf;
    forall f | f in Rows(db, id)
      ensures Avoids(db.files[f].data, dek) <==> dek !in c.layers.value
    {
      LayersAvoid(db.files[f].data, slug, db.files[f].path, c.layers.value, dek);
    }
    assert forall i :: i in db.contents && db.contents[i].slug == slug ==> i == id;
    if c.layers.Some? {
      var f :| f in Rows(db, id);
      assert Revoked(db, slug, dek) ==> Avoids(db.files[f].data, dek);
    }
  }

  /** A stored file with its outermost layer taken off. */
  function Peeled(blob: Blob): Blob {
    if blob.Box? then blob.contents else blob
  }

  /** What a key reads at a stored path, whatever state the entry is in. */
  lemma LayersDecideReads(db: Db, slug: GoString, id: nat, c: Custody, path: GoString, dek: seq<Byte>)
    requires WellFormed(db) && id in Ids(db, slug) && Holds(db, id, c)
    requires !Paths.Contains(path, "..") && Hits(db, slug, path) != {}
    ensures c.layers.Some?
    ensures var hits, flag := Hits(db, slug, path), db.contents[id].allowExternal;
            Answers(db, slug, path, dek) ==
            if c.key.None? then set f | f in hits :: Served(db.files[f].data, db.files[f].contentType, flag, false)
            else if dek == [] then {Refused(PassphraseRequired)}
            else if c.Yields(dek) then
              set f | f in hits :: Served(Peeled(db.files[f].data), db.files[f].contentType, flag, true)
            else {Refused(Corrupted)}
  {
    HitsAreRows(db, slug, path, id);
    var row := db.contents[id];
    EncryptedReadingsAgree(id, row);
    forall f | f in Hits(db, slug, path)
      ensures AnswerFor(Joined(db, f), slug, path, dek) ==
              if c.key.None? then Served(db.files[f].data, db.files[f].contentType, row.allowExternal, false)
              else if dek == [] then Refused(PassphraseRequired)
              else if c.Yields(dek) then
                Served(Peeled(db.files[f].data), db.files[f].contentType, row.allowExternal, true)
              else Refused(Corrupted)
    {
      assert Layered(db.files[f].data, slug, path, c.layers.value);
    }
    var f :| f in Hits(db, slug, path);
    assert AnswerFor(Joined(db, f), slug, path, dek) in Answers(db, slug, path, dek);
  }

  // ----- Single writes ----------------------------------------------------------------------------------------------

  lemma SwapHolds(db: Db, id: nat, env: Option<Envelope>, rewritten: map<nat, Blob>, who: string, dek: Dek, c: Custody)
    requires SwapPermitted(db, id, env, rewritten, who, dek) && Holds(db, id, c)
    ensures var row' := WithColumns(db.contents[id], env);
            Holds(Effect(db, SwapEncryption(id, env, rewritten)), id,
                  Custody(PassphraseOf(row'), KeyOf(row'),
                          if rewritten.Keys == Rows(db, id) then c.Relayered(KeyOf(row')) else c.layers))
    ensures rewritten.Keys == Rows(db, id) ==> c.Opens()
  {
    hide SoundRow, KeyOf, PassphraseOf, Recoded, Layered;
    var row, row' := db.contents[id], WithColumns(db.contents[id], env);
    var db' := Effect(db, SwapEncryption(id, env, rewritten));
    assert Rows(db', id) == Rows(db, id);
    if rewritten.Keys == Rows(db, id) {
      forall f | f in Rows(db, id)
        ensures Layer(c.key) <= c.layers.value
        ensures Layered(db'.files[f].data, row'.slug, db'.files[f].path,
                        Layer(KeyOf(row')) + c.layers.value[|Layer(c.key)|..])
      {
        RecodedLayers(c.key, KeyOf(row'), row.slug, db.files[f], rewritten[f], c.layers.value);
      }
      if c.layers.Some? {
        var f :| f in Rows(db, id);
      }
    }
  }

  lemma MetadataHolds(db: Db, w: Write, id: nat, c: Custody)
    requires w.SetMetadata? && Holds(db, id, c)
    ensures Holds(Effect(db, w), id, c)
  {
    assert Rows(Effect(db, w), id) == Rows(db, id);
  }

  lemma RemovalHolds(db: Db, id: nat, c: Custody)
    requires Holds(db, id, c)
    ensures Holds(Effect(db, RemoveFiles(id)), id, c.(layers := None))
  {
  }

  lemma InsertHolds(db: Db, id: nat, file: FileRow, c: Custody)
    requires Constrained(db) && Holds(db, id, c) && c.InStep()
    requires file.contentId == id && Agrees(db.contents[id], file)
    ensures Holds(Effect(db, InsertFile(file)), id, c.(layers := Some(Layer(c.key))))
  {
    var db' := Effect(db, InsertFile(file));
    assert Rows(db', id) == Rows(db, id) + {db.nextFile};
    AgreesIsOneLayer(db.contents[id], file);
  }

  /** The write is about another entry. */
  predicate Spares(w: Write, id: nat) {
    match w
    case InsertContent(_) => true
    case SetMetadata(id', _, _, _, _) => id' != id
    case SwapEncryption(id', _, _) => id' != id
    case RemoveContent(id') => id' != id
    case InsertFile(file) => file.contentId != id
    case RemoveFiles(id') => id' != id
  }

  lemma SparedHolds(db: Db, w: Write, id: nat, c: Custody)
    requires Constrained(db) && Holds(db, id, c) && Spares(w, id)
    ensures Holds(Effect(db, w), id, c)
  {
    hide Layered, KeyOf, PassphraseOf;
    var db' := Effect(db, w);
    assert Rows(db', id) == Rows(db, id);
    assert forall f :: f in Rows(db, id) ==> db'.files[f] == db.files[f];
  }

  lemma {:induction false} SparedThroughout(db: Db, ws: seq<Write>, who: string, dek: Dek, id: nat, c: Custody, k: nat)
    requires k <= |ws| && WellFormed(db) && PermittedUpTo(db, ws, who, dek, k) && Holds(db, id, c)
    requires forall i :: 0 <= i < k ==> Spares(ws[i], id)
    ensures Holds(At(db, ws, k), id, c)
  {
    hide Holds;
    if k > 0 {
      SparedThroughout(db, ws, who, dek, id, c, k - 1);
      PlanKeepsForm(db, ws, who, dek, k - 1);
      SparedHolds(At(db, ws, k - 1), ws[k - 1], id, c);
    }
  }

  // ----- Updates ----------------------------------------------------------------------------------------------------

  lemma DecodableIsOpens(db: Db, id: nat, c: Custody)
    requires Holds(db, id, c)
    ensures Decodable(db, id, db.contents[id].slug, c.key) <==> c.Opens()
  {
    if c.layers.Some? {
      var slug := db.contents[id].slug;
      forall f | f in Rows(db, id)
        ensures Decode(c.key, slug, db.files[f].path, db.files[f].data).Some? <==> Layer(c.key) <= c.layers.value
      {
        assert Layered(db.files[f].data, slug, db.files[f].path, c.layers.value);
      }
      var f :| f in Rows(db, id);
    }
  }

  /**
   * The encryption change is accepted, changes the envelope, and leads to the key and passphrase, that the machine
   * says.
   */
  lemma ChangeFollows(db: Db, content: Content, p: UpdateParams, draw: Draw, c: Custody)
    requires WellFormed(db) && Stands(db, content) && Holds(db, content.id, c)
    ensures var change := EncryptionChange(db, content, p, draw);
            && (change.Ok? <==> c.Accepts(p))
            && (change.Ok? ==> (change.value.writes != [] <==> c.Changes(p)))
            && (change.Ok? && c.Changes(p) ==>
                  ChangesTo(db, content.id, change.value.writes[0], c.Changed(p, draw.dek), p.Replaces()))
  {
    var row := db.contents[content.id];
    EncryptedReadingsAgree(content.id, row);
    DecodableIsOpens(db, content.id, c);
    if content.encryption.Some? {
      UnwrapForEntry(row, p.passphrase);
    }
    var next := if content.encryption.None? then p.passphrase else p.newPassphrase;
    if next != "" {
      NewEnvelopeSound(row, next, draw);
    }
  }

  ghost predicate ChangesTo(db: Db, id: nat, w: Write, c: Custody, replacing: bool)
    requires id in db.contents
  {
    && IsSwap(db, w, id, replacing)
    && var row' := WithColumns(db.contents[id], w.env);
    KeyOf(row') == c.key && PassphraseOf(row') == c.passphrase
  }

  /** The statements of an update after its envelope change. */
  ghost predicate TailShape(ws: seq<Write>, p: UpdateParams, id: nat, swap: nat) {
    && |ws| == swap + 1 + (if p.Replaces() then 1 + |UploadedFiles(p.upload).files| else 0)
    && ws[swap].SetMetadata? && ws[swap].id == id
    && (p.Replaces() ==> ws[swap + 1] == RemoveFiles(id))
    && forall i :: swap + 2 <= i < |ws| ==> ws[i].InsertFile? && ws[i].file.contentId == id
  }

  lemma TailHasShape(ws: seq<Write>, content: Content, p: UpdateParams, key: Option<Dek>, first: nat, draw: Draw)
    ensures TailShape(ws + ChangeWrites(content, p, key, first, draw), p, content.id, |ws|)
  {
    hide UploadedFiles, NewRow;
    var tail := ChangeWrites(content, p, key, first, draw);
    var all := ws + tail;
    forall i | |ws| + 2 <= i < |all|
      ensures all[i].InsertFile? && all[i].file.contentId == content.id
    {
      assert all[i] == tail[i - |ws|];
      InsertInto(content, p, key, first, draw, i - |ws| - 2);
    }
  }

  lemma InsertInto(content: Content, p: UpdateParams, key: Option<Dek>, first: nat, draw: Draw, j: nat)
    requires 2 + j < |ChangeWrites(content, p, key, first, draw)|
    ensures var w := ChangeWrites(content, p, key, first, draw)[2 + j]; w.InsertFile? && w.file.contentId == content.id
  {
  }

  /** After the removal of the old files every insert finds the entry in step and leaves it so. */
  lemma {:induction false} FillFollows(db: Db, ws: seq<Write>, who: string, dek: Dek, id: nat, c: Custody, start: nat,
                                       k: nat)
    requires start < k <= |ws| && WellFormed(db) && PermittedUpTo(db, ws, who, dek, k)
    requires Holds(At(db, ws, start), id, c.(layers := None))
    requires forall i :: start <= i < k ==> ws[i].InsertFile? && ws[i].file.contentId == id
    ensures Holds(At(db, ws, k), id, c.(layers := Some(Layer(c.key))))
  {
    hide Holds, Effect;
    PermittedEarlier(db, ws, who, dek, k, k - 1);
    PlanKeepsForm(db, ws, who, dek, k - 1);
    var before := c.(layers := if k - 1 == start then None else Some(Layer(c.key)));
    if k - 1 > start {
      FillFollows(db, ws, who, dek, id, c, start, k - 1);
    }
    InsertHolds(At(db, ws, k - 1), id, ws[k - 1].file, before);
  }

  /** The entry after the envelope change, if there is one. */
  function AfterSwap(c: Custody, p: UpdateParams, dek: Dek): Custody {
    if c.Changes(p) then c.Changed(p, dek) else c
  }

  ghost predicate UpdateWrites(db: Db, ws: seq<Write>, p: UpdateParams, dek: Dek, id: nat, c: Custody)
    requires id in db.contents
  {
    && TailShape(ws, p, id, c.SwapCount(p))
    && (c.Changes(p) ==> ChangesTo(db, id, ws[0], c.Changed(p, dek), p.Replaces()))
  }

  lemma FirstFollows(db: Db, ws: seq<Write>, p: UpdateParams, dek: Dek, id: nat, c: Custody)
    requires WellFormed(db) && Holds(db, id, c) && UpdateWrites(db, ws, p, dek, id, c) && c.Changes(p)
    requires PermittedUpTo(db, ws, p.owner, dek, 1)
    ensures Holds(At(db, ws, 1), id, c.Changed(p, dek))
  {
    hide Holds, WellFormed, KeyOf, PassphraseOf;
    assert At(db, ws, 0) == db && At(db, ws, 1) == Effect(db, ws[0]);
    hide Effect;
    assert Permitted(db, ws[0], p.owner, dek);
    SwapHolds(db, id, ws[0].env, ws[0].rewritten, p.owner, dek, c);
    assert Rows(db, id) == {} ==> c.layers.None? by {
      HoldsOf(db, id, c);
    }
  }

  lemma HoldsOf(db: Db, id: nat, c: Custody)
    requires Holds(db, id, c)
    ensures id in db.contents && (c.layers.None? <==> Rows(db, id) == {})
  {
  }

  /** Up to the metadata statement nothing happens to the files but what the envelope change does. */
  lemma HeadFollows(db: Db, ws: seq<Write>, p: UpdateParams, dek: Dek, id: nat, c: Custody, k: nat)
    requires WellFormed(db) && Holds(db, id, c) && UpdateWrites(db, ws, p, dek, id, c)
    requires 0 < k <= c.SwapCount(p) + 1 && PermittedUpTo(db, ws, p.owner, dek, k)
    ensures Holds(At(db, ws, k), id, AfterSwap(c, p, dek))
  {
    hide Holds, WellFormed;
    var swap := c.SwapCount(p);
    assert At(db, ws, 0) == db;
    PermittedEarlier(db, ws, p.owner, dek, k, swap);
    if c.Changes(p) {
      FirstFollows(db, ws, p, dek, id, c);
    }
    if k > swap {
      MetadataHolds(At(db, ws, swap), ws[swap], id, AfterSwap(c, p, dek));
    }
  }

  lemma ShapeFollows(db: Db, ws: seq<Write>, p: UpdateParams, dek: Dek, id: nat, c: Custody, k: nat)
    requires WellFormed(db) && Holds(db, id, c) && UpdateWrites(db, ws, p, dek, id, c)
    requires k <= |ws| && PermittedUpTo(db, ws, p.owner, dek, k)
    ensures Holds(At(db, ws, k), id, c.Updated(p, dek, k))
  {
    hide Holds, WellFormed, ChangesTo, UploadedFiles;
    var head, base := c.SwapCount(p) + 1, AfterSwap(c, p, dek);
    if k == 0 {
    } else if k <= head {
      HeadFollows(db, ws, p, dek, id, c, k);
    } else {
      PermittedEarlier(db, ws, p.owner, dek, k, head);
      HeadFollows(db, ws, p, dek, id, c, head);
      RemovalHolds(At(db, ws, head), id, base);
      assert At(db, ws, head + 1) == Effect(At(db, ws, head), RemoveFiles(id));
      hide Effect;
      if k > head + 1 {
        FillFollows(db, ws, p.owner, dek, id, base, head + 1, k);
      }
    }
  }

  /** An update makes as many statements as the machine says, and after each of them the entry is as it says. */
  lemma UpdateFollows(db: Db, p: UpdateParams, draw: Draw, id: nat, c: Custody, k: nat)
    requires WellFormed(db) && id in Ids(db, p.slug) && db.contents[id].owner == p.owner && Holds(db, id, c)
    ensures |UpdatePlan(db, p, draw).writes| == c.Statements(p)
    ensures k <= c.Statements(p) ==> Holds(At(db, UpdatePlan(db, p, draw).writes, k), id, c.Updated(p, draw.dek, k))
  {
    hide Holds, EncryptionChange, ChangesTo, EnvelopeOf, UploadedFiles, ChangeWrites;
    var ws := UpdatePlan(db, p, draw).writes;
    LoadFinds(db, p.slug, id);
    var content := WithMetadata(Owned(db, p.slug, p.owner).value, p);
    ChangeFollows(db, content, p, draw, c);
    if c.Accepts(p) {
      var change := EncryptionChange(db, content, p, draw).value;
      TailHasShape(change.writes, content.(encryption := change.encryption), p, change.key, db.nextFile, draw);
      assert ws[..|change.writes|] == change.writes;
      if k <= |ws| {
        UpdatePermitted(db, p, draw);
        PermittedEarlier(db, ws, p.owner, draw.dek, |ws|, k);
        ShapeFollows(db, ws, p, draw.dek, id, c, k);
      }
    }
  }

  // ----- Requests ---------------------------------------------------------------------------------------------------

  /** The entry the request is about, if it can write to it. */
  ghost predicate Reaches(db: Db, r: Request, id: nat) {
    match r
    case Create(_, _) => false
    case Update(p, _) => id in Ids(db, p.slug) && db.contents[id].owner == p.owner
    case Delete(slug, owner, _) => id in Ids(db, slug) && db.contents[id].owner == owner
  }

  lemma OthersSpared(db: Db, r: Request, k: nat, undone: bool, id: nat)
    requires WellFormed(db) && id in db.contents && MayStop(db, r, k, undone) && !Reaches(db, r, id)
    ensures forall w :: w in Happened(db, r, k, undone) ==> Spares(w, id)
  {
    match r
    case Create(p, draw) => CreateSpares(db, p, draw, id);
    case Update(p, draw) => UpdateSpares(db, p, draw, id);
    case Delete(slug, owner, _) =>
      if DeletePlan(db, slug, owner).writes != [] {
        OwnedStands(db, slug, owner);
      }
  }

  lemma CreateSpares(db: Db, p: CreateParams, draw: Draw, id: nat)
    requires WellFormed(db) && id in db.contents
    ensures forall w :: w in CreatePlan(db, p, draw).writes ==> Spares(w, id)
  {
  }

  lemma UpdateSpares(db: Db, p: UpdateParams, draw: Draw, id: nat)
    requires WellFormed(db) && id in db.contents && !Reaches(db, Update(p, draw), id)
    ensures forall w :: w in UpdatePlan(db, p, draw).writes ==> Spares(w, id)
  {
    hide EncryptionChange, ChangeWrites, UploadedFiles, EnvelopeOf, SoundRow;
    if UpdatePlan(db, p, draw).writes != [] {
      OwnedStands(db, p.slug, p.owner);
      var content := WithMetadata(Owned(db, p.slug, p.owner).value, p);
      var change := EncryptionChange(db, content, p, draw).value;
      TailHasShape(change.writes, content.(encryption := change.encryption), p, change.key, db.nextFile, draw);
    }
  }

  /** One request, wherever it stops, does to every entry exactly what the machine says. */
  lemma RequestFollows(db: Db, r: Request, k: nat, undone: bool, id: nat, c: Custody)
    requires WellFormed(db) && MayStop(db, r, k, undone) && Holds(db, id, c)
    ensures var db', row := After(db, Happened(db, r, k, undone)), db.contents[id];
            match Stopped(c, row.slug, row.owner, r, k)
            case None => id !in db'.contents
            case Some(c') => Holds(db', id, c')
  {
    hide Holds, WellFormed;
    HoldsOf(db, id, c);
    HappenedPermitted(db, r, k, undone);
    var ws := Happened(db, r, k, undone);
    if !Reaches(db, r, id) {
      OthersSpared(db, r, k, undone, id);
      SparedThroughout(db, ws, Who(r), r.draw.dek, id, c, |ws|);
    } else if r.Update? {
      UpdateFollows(db, r.update, r.draw, id, c, k);
    } else if k > 0 {
      DeletionOf(db, r.slug, r.owner, id);
    }
  }

  // ----- Runs -------------------------------------------------------------------------------------------------------

  /**
   * Every run of any requests, wherever each of them stops, is for every entry the run of the machine: it says whether
   * the entry is still there, with which key, and under which layers its files lie.
   */
  lemma {:induction false} RunsFollowCustody(states: seq<Db>, requests: seq<Request>, stops: seq<Stop>, id: nat,
                                             c: Custody, i: nat)
    requires IsStoppedRun(states, requests, stops) && i < |states| && WellFormed(states[0]) && Holds(states[0], id, c)
    ensures var row := states[0].contents[id];
            match CustodyAt(c, row.slug, row.owner, requests, stops, i)
            case None => id !in states[i].contents
            case Some(now) => Holds(states[i], id, now)
    ensures WellFormed(states[i]) && SameIdentity(states[0], states[i])
  {
    hide Holds, WellFormed, MayStop, Happened, Stopped;
    HoldsOf(states[0], id, c);
    if i > 0 {
      var db, r, stop := states[i - 1], requests[i - 1], stops[i - 1];
      RunsFollowCustody(states, requests, stops, id, c, i - 1);
      assert Leaves(db, r, stop.after, stop.undone, states[i]);
      RequestKeepsForm(db, r, states[i]);
      RequestKeepsIdentity(db, r, states[i]);
      InitialIdIsOld(states[0], id);
      var before := CustodyAt(c, states[0].contents[id].slug, states[0].contents[id].owner, requests, stops, i - 1);
      if before.Some? {
        HoldsOf(db, id, before.value);
        RequestFollows(db, r, stop.after, stop.undone, id, before.value);
      }
    }
  }

  lemma InitialIdIsOld(db: Db, id: nat)
    requires WellFormed(db) && id in db.contents
    ensures id < db.nextContent
  {
  }

  /** So it is known exactly, at every state of every run, whether an entry is in step and which keys it is rid of. */
  lemma ExactOverRuns(states: seq<Db>, requests: seq<Request>, stops: seq<Stop>, id: nat, c: Custody, i: nat,
                      dek: seq<Byte>)
    requires IsStoppedRun(states, requests, stops) && i < |states| && WellFormed(states[0]) && Holds(states[0], id, c)
    requires id in states[i].contents
    ensures var row := states[0].contents[id];
            var now := CustodyAt(c, row.slug, row.owner, requests, stops, i);
            && now.Some? && (Consistent(states[i], id) <==> now.value.InStep())
            && (Revoked(states[i], row.slug, dek) <==> !now.value.Mentions(dek))
  {
    hide Holds, SoundRow, Revoked, Consistent, CustodyAt;
    HoldsOf(states[0], id, c);
    RunsFollowCustody(states, requests, stops, id, c, i);
    InitialIdIsOld(states[0], id);
    var row := states[0].contents[id];
    var now := CustodyAt(c, row.slug, row.owner, requests, stops, i).value;
    InStepIsConsistent(states[i], id, now);
    RevokedIsUnmentioned(states[i], row.slug, id, now, dek);
  }

  /** And which keys read it: a stored path of an encrypted entry is served to the key of its outermost layer alone. */
  lemma KeysThatRead(states: seq<Db>, requests: seq<Request>, stops: seq<Stop>, id: nat, c: Custody, i: nat,
                     path: GoString, dek: seq<Byte>)
    requires IsStoppedRun(states, requests, stops) && i < |states| && WellFormed(states[0]) && Holds(states[0], id, c)
    requires id in states[i].contents && KeyOf(states[i].contents[id]).Some? && dek != []
    requires Hits(states[i], states[0].contents[id].slug, path) != {} && !Paths.Contains(path, "..")
    ensures var row := states[0].contents[id];
            var now := CustodyAt(c, row.slug, row.owner, requests, stops, i);
            var answers := Answers(states[i], row.slug, path, dek);
            && now.Some? && answers != {}
            && if now.value.Yields(dek) then forall a :: a in answers ==> a.Served? else answers == {Refused(Corrupted)}
  {
    hide Holds, SoundRow, CustodyAt, Answers;
    HoldsOf(states[0], id, c);
    RunsFollowCustody(states, requests, stops, id, c, i);
    InitialIdIsOld(states[0], id);
    var row := states[0].contents[id];
    var now := CustodyAt(c, row.slug, row.owner, requests, stops, i).value;
    KeyHeld(states[i], id, now);
    LayersDecideReads(states[i], row.slug, id, now, path, dek);
    var f :| f in Hits(states[i], row.slug, path);
    var file := states[i].files[f];
    assert now.Yields(dek) ==>
             Served(Peeled(file.data), file.contentType, states[i].contents[id].allowExternal, true) in
                               Answers(states[i], row.slug, path, dek);
  }

  lemma KeyHeld(db: Db, id: nat, c: Custody)
    requires Holds(db, id, c)
    ensures id in db.contents && KeyOf(db.contents[id]) == c.key && PassphraseOf(db.contents[id]) == c.passphrase
  {
  }

  /** Every entry has a machine that follows it. */
  ghost predicate AllFollowed(db: Db) {
    forall id :: id in db.contents ==> exists c :: Holds(db, id, c)
  }

  /** From the empty store on that is so in every run: entries come in step, and the machine follows them from there. */
  lemma {:induction false} RunsAreFollowed(states: seq<Db>, requests: seq<Request>, stops: seq<Stop>, i: nat)
    requires IsStoppedRun(states, requests, stops) && i < |states| && WellFormed(states[0]) && AllFollowed(states[0])
    ensures WellFormed(states[i]) && AllFollowed(states[i])
  {
    hide WellFormed, Holds, MayStop, Happened, Stopped;
    if i > 0 {
      RunsAreFollowed(states, requests, stops, i - 1);
      var db, r, stop := states[i - 1], requests[i - 1], stops[i - 1];
      assert Leaves(db, r, stop.after, stop.undone, states[i]);
      RequestKeepsForm(db, r, states[i]);
      forall id | id in states[i].contents
        ensures exists c :: Holds(states[i], id, c)
      {
        if id in db.contents {
          var c :| Holds(db, id, c);
          RequestFollows(db, r, stop.after, stop.undone, id, c);
        } else {
          CreatedInStep(db, r, stop, id);
        }
      }
    }
  }

  /** An entry that a request brings in is in step, wherever the request stops. */
  lemma CreatedInStep(db: Db, r: Request, stop: Stop, id: nat)
    requires WellFormed(db) && id !in db.contents && MayStop(db, r, stop.after, stop.undone)
    requires id in After(db, Happened(db, r, stop.after, stop.undone)).contents
    ensures var db' := After(db, Happened(db, r, stop.after, stop.undone));
            Consistent(db', id) && Holds(db', id, CustodyOf(db', id))
  {
    StoppedKeepsConsistency(db, r, stop.after, stop.undone, id);
    ConsistentHolds(After(db, Happened(db, r, stop.after, stop.undone)), id);
  }

  // ----- Keys from before -------------------------------------------------------------------------------------------

  /** What the entry shows, with its files as they were and its new row. */
  ghost function OldFilesServed(db: Db, db': Db, slug: GoString, id: nat, path: GoString, encrypted: bool): set<Answer>
    requires id in db.contents && id in db'.contents
  {
    set f | f in Hits(db, slug, path) ::
      Served(if encrypted then Bytes(PlaintextOf(db.contents[id], db.files[f])) else db.files[f].data,
             db.files[f].contentType, db'.contents[id].allowExternal, encrypted)
  }

  /** The stored entry after k statements of an update that is accepted, and the machine's account of it. */
  lemma UpdateOutcome(db: Db, p: UpdateParams, draw: Draw, id: nat, k: nat) returns (c: Custody)
    requires WellFormed(db) && Consistent(db, id) && id in Ids(db, p.slug)
    requires UpdatePlan(db, p, draw).writes != [] && k <= |UpdatePlan(db, p, draw).writes|
    ensures c == CustodyOf(db, id).Updated(p, draw.dek, k)
    ensures CustodyOf(db, id).Changes(p) <==> ChangesEncryption(db.contents[id], p)
    ensures var db' := At(db, UpdatePlan(db, p, draw).writes, k);
            WellFormed(db') && id in Ids(db', p.slug) && Holds(db', id, c)
  {
    hide Holds, EncryptionChange, ChangeWrites;
    var ws := UpdatePlan(db, p, draw).writes;
    LoadFinds(db, p.slug, id);
    ConsistentHolds(db, id);
    EncryptedReadingsAgree(id, db.contents[id]);
    UpdateFollows(db, p, draw, id, CustodyOf(db, id), k);
    c := CustodyOf(db, id).Updated(p, draw.dek, k);
    UpdatePermitted(db, p, draw);
    PermittedEarlier(db, ws, p.owner, draw.dek, |ws|, k);
    PlanKeepsForm(db, ws, p.owner, draw.dek, k);
    WritesKeepIdentity(db, ws, k);
    HoldsOf(At(db, ws, k), id, c);
  }

  /** Envelope changes and metadata statements leave every file under its path. */
  lemma {:induction false} PathsStand(db: Db, ws: seq<Write>, slug: GoString, path: GoString, k: nat)
    requires k <= |ws| && forall i :: 0 <= i < k ==> ws[i].SwapEncryption? || ws[i].SetMetadata?
    ensures Hits(At(db, ws, k), slug, path) == Hits(db, slug, path)
    ensures (forall i :: 0 <= i < k && ws[i].SwapEncryption? ==> ws[i].rewritten == map[]) ==>
              At(db, ws, k).files == db.files
  {
    if k > 0 {
      PathsStand(db, ws, slug, path, k - 1);
      WriteKeepsPaths(At(db, ws, k - 1), ws[k - 1], slug, path);
    }
  }

  lemma WriteKeepsPaths(db: Db, w: Write, slug: GoString, path: GoString)
    requires w.SwapEncryption? || w.SetMetadata?
    ensures Hits(Effect(db, w), slug, path) == Hits(db, slug, path)
    ensures w.SetMetadata? || w.rewritten == map[] ==> Effect(db, w).files == db.files
  {
  }

  /** The first statements of an update, before any file is removed. */
  lemma BeforeRemoval(db: Db, p: UpdateParams, draw: Draw, id: nat, path: GoString, k: nat)
    requires WellFormed(db) && id in Ids(db, p.slug) && ChangesEncryption(db.contents[id], p)
    requires k <= |UpdatePlan(db, p, draw).writes| && k <= 2
    ensures var db' := At(db, UpdatePlan(db, p, draw).writes, k);
            && Hits(db', p.slug, path) == Hits(db, p.slug, path) && (p.Replaces() ==> db'.files == db.files)
  {
    hide UpdatePlan, ChangesEncryption;
    if k > 0 {
      UpdateHasShape(db, p, draw, id);
      PathsStand(db, UpdatePlan(db, p, draw).writes, p.slug, path, k);
    }
  }

  lemma RotationYields(c: Custody, p: UpdateParams, dek: Dek, k: nat)
    requires c.InStep() && c.key.Some? && c.key != Some(dek) && c.Changes(p) && !p.removeEncryption && k >= 1
    ensures var now := c.Updated(p, dek, k);
            && now.key == Some(dek)
            && (now.Yields(c.key.value) <==> p.Replaces() && c.layers.Some? && k <= 2)
  {
  }

  /** What the key from before a rotation reads at each statement boundary of it: the very plaintexts, or nothing. */
  lemma RotationReads(db: Db, p: UpdateParams, draw: Draw, id: nat, path: GoString, k: nat)
    requires WellFormed(db) && Consistent(db, id) && id in Ids(db, p.slug) && KeyOf(db.contents[id]).Some?
    requires KeyOf(db.contents[id]) != Some(draw.dek)
    requires UpdatePlan(db, p, draw).writes != [] && ChangesEncryption(db.contents[id], p) && !p.removeEncryption
    requires 1 <= k <= |UpdatePlan(db, p, draw).writes|
    requires !Paths.Contains(path, "..") && Hits(At(db, UpdatePlan(db, p, draw).writes, k), p.slug, path) != {}
    ensures var db', former := At(db, UpdatePlan(db, p, draw).writes, k), KeyOf(db.contents[id]).value;
            id in db'.contents && Answers(db', p.slug, path, former) ==
            if p.Replaces() && Rows(db, id) != {} && k <= 2 then OldFilesServed(db, db', p.slug, id, path, true)
            else {Refused(Corrupted)}
  {
    var db' := At(db, UpdatePlan(db, p, draw).writes, k);
    var former := KeyOf(db.contents[id]).value;
    hide UpdatePlan, ChangesEncryption, Holds, WellFormed, KeyOf, Agrees;
    var c := UpdateOutcome(db, p, draw, id, k);
    RotationYields(CustodyOf(db, id), p, draw.dek, k);
    LayersDecideReads(db', p.slug, id, c, path, former);
    if p.Replaces() && k <= 2 {
      BeforeRemoval(db, p, draw, id, path, k);
      PlaintextsPeel(db, p.slug, id, path);
    }
  }

  /** So the key from before a rotation is refused exactly from the removal of the files that it opens on. */
  lemma RotationEndsAccess(db: Db, p: UpdateParams, draw: Draw, id: nat, path: GoString, k: nat)
    requires WellFormed(db) && Consistent(db, id) && id in Ids(db, p.slug) && KeyOf(db.contents[id]).Some?
    requires KeyOf(db.contents[id]) != Some(draw.dek)
    requires UpdatePlan(db, p, draw).writes != [] && ChangesEncryption(db.contents[id], p) && !p.removeEncryption
    requires 1 <= k <= |UpdatePlan(db, p, draw).writes|
    requires !Paths.Contains(path, "..") && Hits(At(db, UpdatePlan(db, p, draw).writes, k), p.slug, path) != {}
    ensures var answers := Answers(At(db, UpdatePlan(db, p, draw).writes, k), p.slug, path,
                                   KeyOf(db.contents[id]).value);
            && answers != {}
            && (answers == {Refused(Corrupted)} <==> !(p.Replaces() && Rows(db, id) != {} && k <= 2))
            && (answers != {Refused(Corrupted)} ==> forall a :: a in answers ==> a.Served?)
  {
    hide UpdatePlan, ChangesEncryption, WellFormed, Consistent, KeyOf, Answers;
    RotationReads(db, p, draw, id, path, k);
    if p.Replaces() && Rows(db, id) != {} && k <= 2 {
      var db' := At(db, UpdatePlan(db, p, draw).writes, k);
      BeforeRemoval(db, p, draw, id, path, k);
      var f :| f in Hits(db, p.slug, path);
      assert Served(Bytes(PlaintextOf(db.contents[id], db.files[f])), db.files[f].contentType,
                    db'.contents[id].allowExternal, true) in OldFilesServed(db, db', p.slug, id, path, true);
    }
  }

  lemma PlaintextsPeel(db: Db, slug: GoString, id: nat, path: GoString)
    requires Constrained(db) && id in Ids(db, slug) && Consistent(db, id) && KeyOf(db.contents[id]).Some?
    ensures forall f :: f in Hits(db, slug, path) ==>
                          && db.files[f].data.Box?
                          && Peeled(db.files[f].data) == Bytes(PlaintextOf(db.contents[id], db.files[f]))
  {
    HitsAreRows(db, slug, path, id);
    forall f | f in Hits(db, slug, path)
      ensures db.files[f].data.Box?
      ensures Peeled(db.files[f].data) == Bytes(PlaintextOf(db.contents[id], db.files[f]))
    {
      assert Agrees(db.contents[id], db.files[f]);
    }
  }

  /**
   * While an update removes the encryption and has not yet removed the old files, anyone is served their ciphertexts.
   */
  lemma RemovalServesCiphertexts(db: Db, p: UpdateParams, draw: Draw, id: nat, path: GoString, dek: seq<Byte>, k: nat)
    requires WellFormed(db) && Consistent(db, id) && id in Ids(db, p.slug) && KeyOf(db.contents[id]).Some?
    requires UpdatePlan(db, p, draw).writes != [] && ChangesEncryption(db.contents[id], p) && p.removeEncryption
    requires 1 <= k <= 2 && k <= |UpdatePlan(db, p, draw).writes| && p.Replaces()
    requires !Paths.Contains(path, "..") && Hits(db, p.slug, path) != {}
    ensures var db' := At(db, UpdatePlan(db, p, draw).writes, k);
            id in db'.contents && Answers(db', p.slug, path, dek) == OldFilesServed(db, db', p.slug, id, path, false)
    ensures forall f :: f in Hits(db, p.slug, path) ==> db.files[f].data.Box?
  {
    PlaintextsPeel(db, p.slug, id, path);
    hide UpdatePlan, ChangesEncryption, Holds, WellFormed, KeyOf, Agrees, Answers;
    var db' := At(db, UpdatePlan(db, p, draw).writes, k);
    var c := UpdateOutcome(db, p, draw, id, k);
    RemovalBares(CustodyOf(db, id), p, draw.dek, k);
    BeforeRemoval(db, p, draw, id, path, k);
    LayersDecideReads(db', p.slug, id, c, path, dek);
  }

  lemma RemovalBares(c: Custody, p: UpdateParams, dek: Dek, k: nat)
    requires c.Changes(p) && p.removeEncryption && k >= 1
    ensures c.Updated(p, dek, k).key.None?
  {
  }

  /**
   * A concrete rotation: after its first statement a visitor who unlocked the page with the old passphrase is still
   * served, although the old passphrase is refused by then.
   */
  lemma OldKeyReadExists(first: Draw, draw: Draw) returns (db: Db, p: UpdateParams, page: Answer)
    requires first.dek != draw.dek
    ensures Healthy(db) && UnlockResult(db, "a", "old") == Ok(first.dek)
    ensures var ws := UpdatePlan(db, p, draw).writes;
            && p.newPassphrase == "new" && |ws| == 4 && UnlockResult(At(db, ws, 1), "a", "old") == Err(WrongPassphrase)
            && page.Served? && page.data == Bytes([7])
            && Answers(At(db, ws, 1), "a", IndexFile([]).path, first.dek) == {page}
  {
    db, p := SealedPage(first), Rotation();
    SealedPageIsHealthy(first);
    hide SealedPage, UpdatePlan, Holds, Consistent, Answers, UnlockResult, KeyOf, PassphraseOf, SoundRow;
    UnlockIsExact(db, "a", 1, "old");
    ConsistentHolds(db, 1);
    RotationRuns(CustodyOf(db, 1), draw.dek);
    hide Rotation, UploadedFiles, IndexFile;
    UpdateFollows(db, p, draw, 1, CustodyOf(db, 1), 1);
    var c := UpdateOutcome(db, p, draw, 1, 1);
    var mid := At(db, UpdatePlan(db, p, draw).writes, 1);
    KeyHeld(mid, 1, c);
    UnlockIsExact(mid, "a", 1, "old");
    var path := IndexFile([]).path;
    BeforeRemoval(db, p, draw, 1, path, 1);
    IndexPathIsPlain();
    RotationReads(db, p, draw, 1, path, 1);
    page := Served(Bytes([7]), db.files[1].contentType, mid.contents[1].allowExternal, true);
    assert OldFilesServed(db, mid, "a", 1, path, true) == {page};
  }

  /** An encrypted entry with one page. */
  function SealedPage(first: Draw): Db {
    var slug: GoString := "a";
    var row := ContentRow(slug, "owner", "", "", "", false, None, None, None);
    Db(map[1 := WithColumns(row, Some(WrapKey(first.dek, "old", slug, first)))],
       map[1 := NewRow(1, slug, Some(first.dek), IndexFile([7]), [])], 2, 2)
  }

  function Rotation(): UpdateParams {
    UpdateParams("a", "owner", None, None, None, None, Upload([0], "index.html", None), "old", "new", false)
  }

  lemma RotationRuns(c: Custody, dek: Dek)
    requires c.key.Some? && c.passphrase == Some("old")
    ensures var p := Rotation();
            && p.newPassphrase == "new" && !p.removeEncryption && p.Replaces() && p.slug == "a" && p.owner == "owner"
            && c.Changes(p) && c.Statements(p) == 4 && c.Updated(p, dek, 1).passphrase == Some("new")
  {
    assert !IsZip("index.html") by {
      assert Lower("index.html")[6..][0] == 'h';
    }
  }

  lemma SealedPageIsHealthy(first: Draw)
    ensures var db := SealedPage(first);
            && Healthy(db) && Ids(db, "a") == {1} && Rows(db, 1) == {1} && Hits(db, "a", IndexFile([]).path) == {1}
            && KeyOf(db.contents[1]) == Some(first.dek) && PassphraseOf(db.contents[1]) == Some("old")
            && PlaintextOf(db.contents[1], db.files[1]) == [7] && db.contents[1].owner == "owner"
  {
    var slug: GoString := "a";
    NewEnvelopeSound(ContentRow(slug, "owner", "", "", "", false, None, None, None), "old", first);
  }

  // ----- A key that comes back --------------------------------------------------------------------------------------

  /** An entry of this slug and owner with this machine state, and a file under the path. */
  ghost predicate StoredAs(db: Db, id: nat, slug: GoString, owner: string, path: GoString, c: Custody) {
    && WellFormed(db) && Holds(db, id, c) && id in Ids(db, slug) && db.contents[id].owner == owner
    && Hits(db, slug, path) != {}
  }

  /** An update that stops before it removes any file. */
  lemma StopEarly(db: Db, id: nat, slug: GoString, owner: string, path: GoString, c: Custody, p: UpdateParams,
                  draw: Draw, k: nat) returns (db': Db)
    requires StoredAs(db, id, slug, owner, path, c) && p.slug == slug && p.owner == owner
    requires c.Changes(p) && k <= c.Statements(p) && k <= 2
    ensures Leaves(db, Update(p, draw), k, false, db')
    ensures StoredAs(db', id, slug, owner, path, c.Updated(p, draw.dek, k))
  {
    hide Holds, UpdatePlan, SoundRow;
    KeyHeld(db, id, c);
    EncryptedReadingsAgree(id, db.contents[id]);
    UpdateFollows(db, p, draw, id, c, k);
    var r := Update(p, draw);
    db' := After(db, Happened(db, r, k, false));
    HappenedPermitted(db, r, k, false);
    assert Leaves(db, r, k, false, db');
    RequestKeepsForm(db, r, db');
    RequestKeepsIdentity(db, r, db');
    BeforeRemoval(db, p, draw, id, path, k);
    KeyHeld(db', id, c.Updated(p, draw.dek, k));
  }

  /** An owner's request about the encryption, with or without a replacement page. */
  function Ask(slug: GoString, owner: string, replacement: seq<Byte>, passphrase: string, remove: bool): UpdateParams {
    UpdateParams(slug, owner, None, None, None, None, Upload(replacement, "index.html", None), passphrase, "", remove)
  }

  /**
   * A key that has stopped reading can read again. From any encrypted entry in step: a removal with replacement that
   * stops after its first statement, an encryption and a removal that finish, and an encryption with replacement that
   * stops after its first statement. After the second request the first key is refused; after the fourth the entry is
   * encrypted under another key, and the first key is served plaintexts.
   */
  lemma KeyReturns(db: Db, id: nat, path: GoString, a: Draw, b: Draw, c: Draw, d: Draw)
    returns (states: seq<Db>, requests: seq<Request>, stops: seq<Stop>)
    requires WellFormed(db) && id in db.contents && Consistent(db, id) && KeyOf(db.contents[id]).Some?
    requires Hits(db, db.contents[id].slug, path) != {} && !Paths.Contains(path, "..")
    requires KeyOf(db.contents[id]) != Some(b.dek)
    ensures IsStoppedRun(states, requests, stops) && |requests| == 4 && states[0] == db
    ensures var first, slug := KeyOf(db.contents[id]).value, db.contents[id].slug;
            && Answers(states[2], slug, path, first) == {Refused(Corrupted)}
            && id in states[4].contents && KeyOf(states[4].contents[id]) == Some(d.dek)
            && Answers(states[4], slug, path, first) != {}
            && forall answer :: answer in Answers(states[4], slug, path, first) ==> answer.Served? && answer.data.Bytes?
  {
    var row := db.contents[id];
    var first := KeyOf(row).value;
    var c0 := CustodyOf(db, id);
    ConsistentHolds(db, id);
    EncryptedReadingsAgree(id, row);
    HitsAreRows(db, row.slug, path, id);
    var passphrase := PassphraseOf(row).value;
    assert passphrase != "";
    hide Holds, WellFormed, Consistent, SoundRow, KeyOf, PassphraseOf, Answers, Leaves, IsStoppedRun;
    states, requests, stops := FourRequests(db, id, row.slug, row.owner, path, passphrase, first, a, b, c, d);
    assert c0 == Custody(Some(passphrase), Some(first), Some([first]));
    Refuses(states[2], id, row.slug, row.owner, path, Custody(Some("x"), Some(b.dek), Some([b.dek, first])), first);
    Yielded(states[4], id, row.slug, row.owner, path, Custody(Some("x"), Some(d.dek), Some([first])), first);
  }

  lemma FourRequests(db: Db, id: nat, slug: GoString, owner: string, path: GoString, passphrase: string, first: Dek,
                     a: Draw, b: Draw, c: Draw, d: Draw)
    returns (states: seq<Db>, requests: seq<Request>, stops: seq<Stop>)
    requires passphrase != ""
    requires StoredAs(db, id, slug, owner, path, Custody(Some(passphrase), Some(first), Some([first])))
    ensures IsStoppedRun(states, requests, stops) && |requests| == 4 && states[0] == db
    ensures StoredAs(states[2], id, slug, owner, path, Custody(Some("x"), Some(b.dek), Some([b.dek, first])))
    ensures StoredAs(states[4], id, slug, owner, path, Custody(Some("x"), Some(d.dek), Some([first])))
  {
    hide StoredAs, Leaves;
    var remove := Ask(slug, owner, [0], passphrase, true);
    var encrypt, decrypt := Ask(slug, owner, [], "x", false), Ask(slug, owner, [], "x", true);
    var replace := Ask(slug, owner, [0], "x", false);
    var c0 := Custody(Some(passphrase), Some(first), Some([first]));
    var bare := Custody(None, None, Some([first]));
    var twice := Custody(Some("x"), Some(b.dek), Some([b.dek, first]));
    assert c0.Updated(remove, a.dek, 1) == bare;
    assert bare.Relayered(Some(b.dek)).value == [b.dek, first];
    assert twice.Relayered(None).value == [first];
    assert bare.Updated(encrypt, b.dek, 2) == twice;
    assert twice.Updated(decrypt, c.dek, 2) == bare;
    var db1 := StopEarly(db, id, slug, owner, path, c0, remove, a, 1);
    var db2 := StopEarly(db1, id, slug, owner, path, bare, encrypt, b, 2);
    var db3 := StopEarly(db2, id, slug, owner, path, twice, decrypt, c, 2);
    var db4 := StopEarly(db3, id, slug, owner, path, bare, replace, d, 1);
    states := [db, db1, db2, db3, db4];
    requests := [Update(remove, a), Update(encrypt, b), Update(decrypt, c), Update(replace, d)];
    stops := [Stop(1, false), Stop(2, false), Stop(2, false), Stop(1, false)];
  }

  lemma Refuses(db: Db, id: nat, slug: GoString, owner: string, path: GoString, c: Custody, dek: Dek)
    requires StoredAs(db, id, slug, owner, path, c) && !Paths.Contains(path, "..")
    requires c.key.Some? && !c.Yields(dek)
    ensures Answers(db, slug, path, dek) == {Refused(Corrupted)}
  {
    hide Holds, WellFormed;
    LayersDecideReads(db, slug, id, c, path, dek);
  }

  lemma OneLayer(blob: Blob, slug: GoString, path: GoString, dek: Dek)
    requires Layered(blob, slug, path, [dek])
    ensures blob.Box? && blob.contents.Bytes?
  {
    var layers := [dek];
    assert layers[1..] == [] && Layered(blob, slug, path, layers);
  }

  /** A key whose layer is the only one is served plaintexts, whichever key the envelope holds. */
  lemma Yielded(db: Db, id: nat, slug: GoString, owner: string, path: GoString, c: Custody, dek: Dek)
    requires StoredAs(db, id, slug, owner, path, c) && !Paths.Contains(path, "..")
    requires c.key.Some? && c.layers == Some([dek])
    ensures id in db.contents && KeyOf(db.contents[id]) == c.key && Answers(db, slug, path, dek) != {}
    ensures forall answer :: answer in Answers(db, slug, path, dek) ==> answer.Served? && answer.data.Bytes?
  {
    KeyHeld(db, id, c);
    HitsAreRows(db, slug, path, id);
    forall f | f in Hits(db, slug, path)
      ensures Peeled(db.files[f].data).Bytes?
    {
      OneLayer(db.files[f].data, slug, path, dek);
    }
    hide Holds, WellFormed, KeyOf, Layered;
    LayersDecideReads(db, slug, id, c, path, dek);
    var f :| f in Hits(db, slug, path);
    assert Served(Peeled(db.files[f].data), db.files[f].contentType, db.contents[id].allowExternal, true) in
           Answers(db, slug, path, dek);
  }

  /**
   * Two interruptions can undo each other: caught by an encryption and then by a removal, an entry is in step again.
   */
  lemma CaughtTwiceIsInStep(db: Db, id: nat, path: GoString, a: Draw, b: Draw)
    returns (states: seq<Db>, requests: seq<Request>, stops: seq<Stop>)
    requires WellFormed(db) && id in db.contents && Consistent(db, id) && KeyOf(db.contents[id]).None?
    requires Hits(db, db.contents[id].slug, path) != {}
    ensures IsStoppedRun(states, requests, stops) && |requests| == 2 && states[0] == db
    ensures Exposed(states, requests, stops, id, 1) && Exposed(states, requests, stops, id, 2)
    ensures !Consistent(states[1], id) && id in states[2].contents && Consistent(states[2], id)
  {
    var row := db.contents[id];
    ConsistentHolds(db, id);
    EncryptedReadingsAgree(id, row);
    HitsAreRows(db, row.slug, path, id);
    assert CustodyOf(db, id) == Bare();
    hide Holds, WellFormed, Consistent, SoundRow, KeyOf, PassphraseOf, IsStoppedRun, Exposed, CustodyOf;
    states, requests, stops := TwoRequests(db, id, row.slug, row.owner, path, a, b);
    TwoRequestsCatch(states, requests, stops, id, row.slug, row.owner, path, a, b);
  }

  function Bare(): Custody {
    Custody(None, None, Some([]))
  }

  function CaughtBy(draw: Draw): Custody {
    Custody(Some("x"), Some(draw.dek), Some([]))
  }

  lemma TwoRequests(db: Db, id: nat, slug: GoString, owner: string, path: GoString, a: Draw, b: Draw)
    returns (states: seq<Db>, requests: seq<Request>, stops: seq<Stop>)
    requires StoredAs(db, id, slug, owner, path, Bare())
    ensures IsStoppedRun(states, requests, stops) && |requests| == 2 && states[0] == db
    ensures requests == [Update(Ask(slug, owner, [0], "x", false), a), Update(Ask(slug, owner, [0], "x", true), b)]
    ensures stops == [Stop(1, false), Stop(1, false)]
    ensures StoredAs(states[1], id, slug, owner, path, CaughtBy(a))
    ensures StoredAs(states[2], id, slug, owner, path, Bare())
  {
    hide StoredAs, Leaves;
    var encrypt, decrypt := Ask(slug, owner, [0], "x", false), Ask(slug, owner, [0], "x", true);
    var db1 := StopEarly(db, id, slug, owner, path, Bare(), encrypt, a, 1);
    var db2 := StopEarly(db1, id, slug, owner, path, CaughtBy(a), decrypt, b, 1);
    states, requests := [db, db1, db2], [Update(encrypt, a), Update(decrypt, b)];
    stops := [Stop(1, false), Stop(1, false)];
  }

  lemma TwoRequestsCatch(states: seq<Db>, requests: seq<Request>, stops: seq<Stop>, id: nat, slug: GoString,
                         owner: string, path: GoString, a: Draw, b: Draw)
    requires |states| == 3 && |requests| == |stops| == 2
    requires requests == [Update(Ask(slug, owner, [0], "x", false), a), Update(Ask(slug, owner, [0], "x", true), b)]
    requires stops == [Stop(1, false), Stop(1, false)]
    requires StoredAs(states[0], id, slug, owner, path, Bare())
    requires StoredAs(states[1], id, slug, owner, path, CaughtBy(a))
    requires StoredAs(states[2], id, slug, owner, path, Bare())
    ensures Exposed(states, requests, stops, id, 1) && Exposed(states, requests, stops, id, 2)
    ensures !Consistent(states[1], id) && id in states[2].contents && Consistent(states[2], id)
  {
    hide StoredAs, Catches, Consistent, Exposed;
    StoredIsCaught(states[0], id, slug, owner, path, Bare(), Ask(slug, owner, [0], "x", false), a);
    StoredIsCaught(states[1], id, slug, owner, path, CaughtBy(a), Ask(slug, owner, [0], "x", true), b);
    StoredInStep(states[1], id, slug, owner, path, CaughtBy(a));
    StoredInStep(states[2], id, slug, owner, path, Bare());
    ExposedTwice(states, requests, stops, id);
  }

  lemma ExposedTwice(states: seq<Db>, requests: seq<Request>, stops: seq<Stop>, id: nat)
    requires |states| == 3 && |requests| == |stops| == 2
    requires forall j :: 0 <= j < 2 ==> Catches(states[j], requests[j], stops[j].after, id)
    ensures Exposed(states, requests, stops, id, 1) && Exposed(states, requests, stops, id, 2)
  {
    hide Catches;
  }

  lemma StoredInStep(db: Db, id: nat, slug: GoString, owner: string, path: GoString, c: Custody)
    requires StoredAs(db, id, slug, owner, path, c)
    ensures id in db.contents && (Consistent(db, id) <==> c.InStep())
  {
    InStepIsConsistent(db, id, c);
  }

  lemma StoredIsCaught(db: Db, id: nat, slug: GoString, owner: string, path: GoString, c: Custody, p: UpdateParams,
                       draw: Draw)
    requires StoredAs(db, id, slug, owner, path, c) && p.slug == slug && p.Replaces() && c.Changes(p)
    ensures Catches(db, Update(p, draw), 1, id)
  {
    EncryptedReadingsAgree(id, db.contents[id]);
    HitsAreRows(db, slug, path, id);
  }
}
