/** Which nonces the stored payloads carry, over whole runs: no two payloads ever share one. */
module Nonces {
  import opened Wrappers
  import opened ByteStrings
  import opened Sealing
  import opened Store
  import opened Requests
  import opened Invariants
  import opened Runs
  import opened Preservation

  /**
   * Every layer of the payload in row f was sealed with the nonce that one of the first i requests drew for that row.
   */
  ghost predicate FromDraws(blob: Blob, f: nat, requests: seq<Request>, i: nat)
    requires i <= |requests|
  {
    blob.Box? ==>
      && (exists j {:trigger requests[j]} :: 0 <= j < i && blob.nonce == requests[j].draw.fileNonce(f))
      && FromDraws(blob.contents, f, requests, i)
  }

  ghost predicate AllFromDraws(db: Db, requests: seq<Request>, i: nat)
    requires i <= |requests|
  {
    forall f :: f in db.files ==> FromDraws(db.files[f].data, f, requests, i)
  }

  lemma {:induction false} LaterDraws(blob: Blob, f: nat, requests: seq<Request>, i: nat, i': nat)
    requires i <= i' <= |requests| && FromDraws(blob, f, requests, i)
    ensures FromDraws(blob, f, requests, i')
  {
    if blob.Box? {
      LaterDraws(blob.contents, f, requests, i, i');
    }
  }

  // ----- Writes -----------------------------------------------------------------------------------------------------

  /** The payload is the old one with at most a layer taken off and at most one put on, with this nonce. */
  predicate Resealed(before: Blob, after: Blob, nonce: seq<Byte>) {
    || after == before || (before.Box? && after == before.contents)
    || (after.Box? && after.nonce == nonce
        && (after.contents == before || (before.Box? && after.contents == before.contents)))
  }

  /** Every payload the write stores is sealed, if at all, with the nonce drawn for its row. */
  ghost predicate Nonced(db: Db, w: Write, draw: Draw) {
    match w
    case InsertFile(file) =>
      file.data.Box? ==> file.data.nonce == draw.fileNonce(db.nextFile) && file.data.contents.Bytes?
    case SwapEncryption(_, _, rewritten) =>
      forall f :: f in rewritten && f in db.files ==> Resealed(db.files[f].data, rewritten[f], draw.fileNonce(f))
    case _ => true
  }

  lemma WriteKeepsDraws(db: Db, w: Write, requests: seq<Request>, i: nat)
    requires i < |requests| && AllFromDraws(db, requests, i + 1) && Nonced(db, w, requests[i].draw)
    ensures AllFromDraws(Effect(db, w), requests, i + 1)
  {
    var db' := Effect(db, w);
    forall f | f in db'.files
      ensures FromDraws(db'.files[f].data, f, requests, i + 1)
    {
      assert f in db.files ==> FromDraws(db.files[f].data, f, requests, i + 1);
    }
  }

  lemma {:induction false} WritesKeepDraws(db: Db, ws: seq<Write>, requests: seq<Request>, i: nat, k: nat)
    requires k <= |ws| && i < |requests| && AllFromDraws(db, requests, i + 1)
    requires forall j {:trigger ws[j]} :: 0 <= j < k ==> Nonced(At(db, ws, j), ws[j], requests[i].draw)
    ensures AllFromDraws(At(db, ws, k), requests, i + 1)
  {
    hide AllFromDraws, Nonced;
    if k > 0 {
      WritesKeepDraws(db, ws, requests, i, k - 1);
      WriteKeepsDraws(At(db, ws, k - 1), ws[k - 1], requests, i);
    }
  }

  // ----- Plans ------------------------------------------------------------------------------------------------------

  /** Inserts start at `start`, each sealed with the nonce drawn for the number its row gets; swaps come first. */
  ghost predicate Drawn(db: Db, ws: seq<Write>, draw: Draw, start: nat) {
    && (forall j :: 0 <= j < |ws| && j < start ==> !ws[j].InsertFile?)
    && (forall j :: start <= j < |ws| ==> ws[j].InsertFile? || (ws[j].RemoveContent? && j == |ws| - 1))
    && (forall j :: start <= j < |ws| && ws[j].InsertFile? && ws[j].file.data.Box? ==>
          ws[j].file.data.nonce == draw.fileNonce(db.nextFile + j - start) && ws[j].file.data.contents.Bytes?)
    && (forall j :: 0 <= j < |ws| && ws[j].SwapEncryption? ==> j == 0 && Nonced(db, ws[0], draw))
  }

  lemma {:induction false} NumbersCount(db: Db, ws: seq<Write>, draw: Draw, start: nat, k: nat)
    requires k < |ws| && Drawn(db, ws, draw, start)
    ensures At(db, ws, k).nextFile == db.nextFile + if k <= start then 0 else k - start
  {
    if k > 0 {
      NumbersCount(db, ws, draw, start, k - 1);
      assert k - 1 >= start ==> ws[k - 1].InsertFile?;
    }
  }

  lemma DrawnIsNonced(db: Db, ws: seq<Write>, draw: Draw, start: nat, k: nat)
    requires k < |ws| && Drawn(db, ws, draw, start)
    ensures Nonced(At(db, ws, k), ws[k], draw)
  {
    NumbersCount(db, ws, draw, start, k);
    assert At(db, ws, 0) == db;
  }

  lemma InsertIsDrawn(id: nat, slug: GoString, key: Option<Dek>, file: NewFile, nonce: seq<Byte>)
    ensures var data := NewRow(id, slug, key, file, nonce).data;
            data.Box? ==> data.nonce == nonce && data.contents.Bytes?
  {
  }

  lemma ReencodedIsDrawn(db: Db, id: nat, slug: GoString, oldKey: Option<Dek>, newKey: Option<Dek>, draw: Draw, f: nat)
    requires Decodable(db, id, slug, oldKey) && f in Rows(db, id)
    ensures Resealed(db.files[f].data, Reencoded(db, id, slug, oldKey, newKey, draw)[f], draw.fileNonce(f))
  {
  }

  lemma SwapIsDrawn(db: Db, c: Content, oldKey: Option<Dek>, env: Option<Envelope>, newKey: Option<Dek>,
                    replacing: bool, draw: Draw)
    requires SwapTo(db, c, oldKey, env, newKey, replacing, draw).Ok?
    ensures Nonced(db, SwapTo(db, c, oldKey, env, newKey, replacing, draw).value.writes[0], draw)
  {
    hide Resealed, Encode, Decode;
    if !replacing {
      forall f | f in Rows(db, c.id)
        ensures Resealed(db.files[f].data, Reencoded(db, c.id, c.slug, oldKey, newKey, draw)[f], draw.fileNonce(f))
      {
        ReencodedIsDrawn(db, c.id, c.slug, oldKey, newKey, draw, f);
      }
    }
  }

  lemma ChangeIsDrawn(db: Db, c: Content, p: UpdateParams, draw: Draw)
    requires EncryptionChange(db, c, p, draw).Ok?
    ensures forall w :: w in EncryptionChange(db, c, p, draw).value.writes ==> w.SwapEncryption? && Nonced(db, w, draw)
  {
    hide Nonced, SwapTo, Unwrap, NewEnvelope;
    forall oldKey, env, newKey | SwapTo(db, c, oldKey, env, newKey, p.Replaces(), draw).Ok?
      ensures Nonced(db, SwapTo(db, c, oldKey, env, newKey, p.Replaces(), draw).value.writes[0], draw)
    {
      SwapIsDrawn(db, c, oldKey, env, newKey, p.Replaces(), draw);
    }
  }

  lemma UpdateIsDrawn(db: Db, p: UpdateParams, draw: Draw) returns (start: nat)
    ensures Drawn(db, UpdatePlan(db, p, draw).writes, draw, start)
  {
    hide EncryptionChange, ChangeWrites, UploadedFiles, Nonced, NewRow;
    start := 0;
    var ws := UpdatePlan(db, p, draw).writes;
    if ws != [] {
      var c := WithMetadata(Owned(db, p.slug, p.owner).value, p);
      var change := EncryptionChange(db, c, p, draw).value;
      ChangeIsDrawn(db, c, p, draw);
      var c' := c.(encryption := change.encryption);
      var tail := ChangeWrites(c', p, change.key, db.nextFile, draw);
      start := |change.writes| + 2;
      TailIsDrawn(c', p, change.key, db.nextFile, draw);
      assert ws == change.writes + tail;
      assert forall j {:trigger ws[j]} :: |change.writes| <= j < |ws| ==> ws[j] == tail[j - |change.writes|];
      assert forall j {:trigger ws[j]} :: 0 <= j < |change.writes| ==> ws[j] in change.writes;
    }
  }

  lemma TailIsDrawn(c: Content, p: UpdateParams, key: Option<Dek>, first: nat, draw: Draw)
    ensures var ws := ChangeWrites(c, p, key, first, draw);
            && (forall j :: 0 <= j < |ws| && j < 2 ==> !ws[j].InsertFile? && !ws[j].SwapEncryption?)
            && (forall j :: 2 <= j < |ws| ==> ws[j].InsertFile?)
            && (forall j :: 2 <= j < |ws| && ws[j].file.data.Box? ==>
                  ws[j].file.data.nonce == draw.fileNonce(first + j - 2) && ws[j].file.data.contents.Bytes?)
  {
    hide UploadedFiles, NewRow;
    var ws := ChangeWrites(c, p, key, first, draw);
    if p.Replaces() {
      forall j | 2 <= j < |ws|
        ensures ws[j].InsertFile?
        ensures ws[j].file.data.Box? ==>
                  ws[j].file.data.nonce == draw.fileNonce(first + j - 2) && ws[j].file.data.contents.Bytes?
      {
        InsertInTail(c, p, key, first, draw, j - 2);
        InsertIsDrawn(c.id, c.slug, key, UploadedFiles(p.upload).files[j - 2], draw.fileNonce(first + (j - 2)));
      }
    }
  }

  lemma CreateIsDrawn(db: Db, p: CreateParams, draw: Draw) returns (start: nat)
    ensures Drawn(db, CreatePlan(db, p, draw).writes, draw, start)
  {
    hide UploadedFiles, NewRow, NewContent, NewKey, RowOf, Nonced;
    start := 1;
    var ws := CreatePlan(db, p, draw).writes;
    if ws != [] {
      var c, key, files := NewContent(p, db.nextContent, draw), NewKey(p, draw), UploadedFiles(p.upload).files;
      var fill := FillWrites(c, p.upload, key, db.nextFile, draw);
      assert ws == [InsertContent(RowOf(c))] + fill;
      forall j | 1 <= j < |ws| && ws[j].InsertFile? && ws[j].file.data.Box?
        ensures ws[j].file.data.nonce == draw.fileNonce(db.nextFile + j - 1) && ws[j].file.data.contents.Bytes?
      {
        assert ws[j] == fill[j - 1];
        InsertIsDrawn(c.id, c.slug, key, files[j - 1], draw.fileNonce(db.nextFile + (j - 1)));
      }
    }
  }

  lemma PlanIsDrawn(db: Db, r: Request) returns (start: nat)
    requires WellFormed(db)
    ensures Drawn(db, PlanOf(db, r).writes, r.draw, start)
  {
    match r
    case Create(p, draw) => start := CreateIsDrawn(db, p, draw);
    case Update(p, draw) => start := UpdateIsDrawn(db, p, draw);
    case Delete(slug, owner, _) =>
      start := 0;
  }

  // ----- Runs -------------------------------------------------------------------------------------------------------

  lemma RequestKeepsDraws(db: Db, requests: seq<Request>, i: nat, db': Db)
    requires i < |requests| && WellFormed(db) && AllFromDraws(db, requests, i) && MayLeave(db, requests[i], db')
    ensures AllFromDraws(db', requests, i + 1)
  {
    hide PlanOf, Nonced, Drawn, FromDraws;
    var r := requests[i];
    var k: nat, undone :| Leaves(db, r, k, undone, db');
    var ws := PlanOf(db, r).writes;
    forall f | f in db.files
      ensures FromDraws(db.files[f].data, f, requests, i + 1)
    {
      LaterDraws(db.files[f].data, f, requests, i, i + 1);
    }
    var start := PlanIsDrawn(db, r);
    forall j {:trigger ws[j]} | 0 <= j < k
      ensures Nonced(At(db, ws, j), ws[j], r.draw)
    {
      DrawnIsNonced(db, ws, r.draw, start, j);
    }
    WritesKeepDraws(db, ws, requests, i, k);
    HappenedPermitted(db, r, k, false);
    if undone {
      var remove := RemoveContent(db.nextContent);
      RemovalKeepsDraws(At(db, ws, k), remove, requests, i);
      assert ws[..k] + [] == ws[..k];
      AtConcat(db, ws[..k], [remove], 1);
      OneWrite(At(db, ws, k), remove);
    }
  }

  lemma RemovalKeepsDraws(db: Db, w: Write, requests: seq<Request>, i: nat)
    requires i < |requests| && AllFromDraws(db, requests, i + 1) && w.RemoveContent?
    ensures AllFromDraws(Effect(db, w), requests, i + 1)
  {
    WriteKeepsDraws(db, w, requests, i);
  }

  /** In every state of every run each layer of each payload was sealed with a nonce drawn for its own row. */
  lemma {:induction false} RunsKeepDraws(states: seq<Db>, requests: seq<Request>, i: nat)
    requires IsRun(states, requests) && WellFormed(states[0]) && i < |states|
    requires forall f :: f in states[0].files ==> states[0].files[f].data.Bytes?
    ensures AllFromDraws(states[i], requests, i)
  {
    hide WellFormed, MayLeave;
    if i > 0 {
      hide AllFromDraws;
      RunsKeepDraws(states, requests, i - 1);
      RunsKeepForm(states, requests, i - 1);
      RequestKeepsDraws(states[i - 1], requests, i - 1, states[i]);
    }
  }

  /** So as long as the nonces drawn for different rows differ, no two stored payloads ever share a nonce. */
  lemma NoncesNeverRepeat(states: seq<Db>, requests: seq<Request>, i: nat, f: nat, g: nat)
    requires IsRun(states, requests) && WellFormed(states[0]) && i < |states|
    requires forall f :: f in states[0].files ==> states[0].files[f].data.Bytes?
    requires forall j, j', f, f' :: 0 <= j < i && 0 <= j' < i && f != f' ==>
               requests[j].draw.fileNonce(f) != requests[j'].draw.fileNonce(f')
    requires f in states[i].files && g in states[i].files && f != g
    requires states[i].files[f].data.Box? && states[i].files[g].data.Box?
    ensures states[i].files[f].data.nonce != states[i].files[g].data.nonce
  {
    RunsKeepDraws(states, requests, i);
    assert FromDraws(states[i].files[f].data, f, requests, i) && FromDraws(states[i].files[g].data, g, requests, i);
  }
}
