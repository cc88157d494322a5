/**
 * Crash consistency: which statement boundaries of a request leave every entry's payloads in step with its
 * envelope, and how an entry that was caught out of step recovers.
 */
module Crashes {
  import opened Wrappers
  import opened ByteStrings
  import opened Sealing
  import opened Store
  import opened Requests
  import opened Invariants
  import opened Runs

  /** The write changes the envelope of an entry whose payloads it leaves alone. */
  ghost predicate Outdates(db: Db, w: Write, id: nat) {
    w.SwapEncryption? && w.id == id && w.rewritten == map[] && Rows(db, id) != {}
  }

  lemma WriteKeepsConsistency(db: Db, w: Write, who: string, dek: Dek, id: nat)
    requires WellFormed(db) && Permitted(db, w, who, dek) && Consistent(db, id)
    requires !Outdates(db, w, id)
    ensures Consistent(Effect(db, w), id)
  {
    match w
    case SwapEncryption(id', _, rewritten) =>
      if id' == id && id in db.contents {
        assert rewritten.Keys == Rows(db, id);
        assert forall f :: f in db.files && db.files[f].contentId == id ==>
                 f in rewritten && Agrees(db.contents[id], db.files[f]);
      }
    case _ =>
  }

  /** Entries the request is not about, and steps that outdate nothing, stay consistent. */
  lemma {:induction false} PlanKeepsConsistency(db: Db, ws: seq<Write>, who: string, dek: Dek, id: nat, k: nat)
    requires k <= |ws| && WellFormed(db) && PermittedUpTo(db, ws, who, dek, k) && Consistent(db, id)
    requires forall i: nat :: i < k ==> !Outdates(At(db, ws, i), ws[i], id)
    ensures Consistent(At(db, ws, k), id)
  {
    if k > 0 {
      PlanKeepsConsistency(db, ws, who, dek, id, k - 1);
      PlanKeepsForm(db, ws, who, dek, k - 1);
      WriteKeepsConsistency(At(db, ws, k - 1), ws[k - 1], who, dek, id);
    }
  }

  /** Files are inserted in step with the envelope even when the entry was out of step before. */
  lemma {:induction false} FreshFilesConsistent(db: Db, ws: seq<Write>, who: string, dek: Dek, id: nat, start: nat,
                                                k: nat)
    requires start <= k <= |ws| && WellFormed(db) && PermittedUpTo(db, ws, who, dek, k)
    requires start > 0 && ws[start - 1] == RemoveFiles(id)
    requires forall i :: start <= i < k ==> !ws[i].SwapEncryption?
    ensures Consistent(At(db, ws, k), id)
  {
    if k == start {
    } else {
      FreshFilesConsistent(db, ws, who, dek, id, start, k - 1);
      PlanKeepsForm(db, ws, who, dek, k - 1);
      WriteKeepsConsistency(At(db, ws, k - 1), ws[k - 1], who, dek, id);
    }
  }

  // ----- Creations and deletions ---------------------------------------------------------------------------------

  lemma OnlyUpdatesSwap(db: Db, r: Request, k: nat, undone: bool)
    requires MayStop(db, r, k, undone) && !r.Update?
    ensures forall w :: w in Happened(db, r, k, undone) ==> !w.SwapEncryption?
  {
  }

  /** A creation leaves every entry that was consistent so wherever it stops, taken back or not; so does a deletion. */
  lemma CreateAndDeleteAreCrashSafe(db: Db, r: Request, db': Db, id: nat)
    requires WellFormed(db) && Consistent(db, id) && MayLeave(db, r, db') && !r.Update?
    ensures Consistent(db', id)
  {
    var k: nat, undone :| Leaves(db, r, k, undone, db');
    StoppedKeepsConsistency(db, r, k, undone, id);
  }

  // ----- Updates ----------------------------------------------------------------------------------------------------

  /** The request, if it is accepted, changes the entry's envelope: the guard of the three rewriting branches. */
  predicate ChangesEncryption(row: ContentRow, p: UpdateParams) {
    if row.encKdf.None? then !p.removeEncryption && p.newPassphrase == "" && p.passphrase != ""
    else (p.removeEncryption || p.newPassphrase != "") && p.passphrase != "" && Some(p.passphrase) == PassphraseOf(row)
  }

  /** The update replaces the files of an entry that has some, and changes its envelope as well. */
  ghost predicate SwapsUnderOldFiles(db: Db, p: UpdateParams, id: nat) {
    id in db.contents && p.Replaces() && ChangesEncryption(db.contents[id], p) && Rows(db, id) != {}
  }

  lemma ChangeAsked(db: Db, c: Content, p: UpdateParams, draw: Draw)
    requires WellFormed(db) && Stands(db, c) && EncryptionChange(db, c, p, draw).Ok?
    ensures EncryptionChange(db, c, p, draw).value.writes != [] <==> ChangesEncryption(db.contents[c.id], p)
  {
    EncryptedReadingsAgree(c.id, db.contents[c.id]);
    if c.encryption.Some? {
      UnwrapForEntry(db.contents[c.id], p.passphrase);
    }
  }

  function NewFlag(row: ContentRow, p: UpdateParams): bool {
    if p.allowExternal.Some? then p.allowExternal.value else row.allowExternal
  }

  /** Where the envelope change stands in an update that is not refused, and what follows it. */
  ghost predicate UpdateShape(db: Db, ws: seq<Write>, p: UpdateParams, id: nat, swap: nat)
    requires id in db.contents
  {
    && |ws| > swap && ws[swap].SetMetadata? && ws[swap].id == id
    && ws[swap].allowExternal == NewFlag(db.contents[id], p)
    && (!p.Replaces() ==> |ws| == swap + 1)
    && (swap == 1 ==> IsSwap(db, ws[0], id, p.Replaces()))
    && (p.Replaces() ==> |ws| > swap + 1 && ws[swap + 1] == RemoveFiles(id))
    && (forall i :: swap <= i < |ws| ==> !ws[i].SwapEncryption? && !ws[i].InsertContent? && !ws[i].RemoveContent?)
  }

  lemma UpdateHasShape(db: Db, p: UpdateParams, draw: Draw, id: nat)
    requires WellFormed(db) && id in db.contents && db.contents[id].slug == p.slug
    requires UpdatePlan(db, p, draw).writes != []
    ensures UpdateShape(db, UpdatePlan(db, p, draw).writes, p, id,
                        if ChangesEncryption(db.contents[id], p) then 1 else 0)
  {
    hide WellFormed, ChangesEncryption, IsSwap, UploadedFiles, EncryptionChange, EnvelopeOf;
    LoadFinds(db, p.slug, id);
    var c := WithMetadata(Owned(db, p.slug, p.owner).value, p);
    ChangeAsked(db, c, p, draw);
    var change := EncryptionChange(db, c, p, draw).value;
    var tail := ChangeWrites(c.(encryption := change.encryption), p, change.key, db.nextFile, draw);
    assert UpdatePlan(db, p, draw).writes == change.writes + tail;
    assert forall i :: 0 <= i < |tail| ==>
             !tail[i].SwapEncryption? && !tail[i].InsertContent? && !tail[i].RemoveContent?;
  }

  /** Changing the envelope alone puts every file of the entry out of step. */
  lemma SwapAloneOutdates(db: Db, id: nat, env: Option<Envelope>, who: string, dek: Dek)
    requires WellFormed(db) && Permitted(db, SwapEncryption(id, env, map[]), who, dek)
    requires Consistent(db, id) && Rows(db, id) != {}
    requires KeyOf(WithColumns(db.contents[id], env)) != KeyOf(db.contents[id])
    ensures !Consistent(Effect(db, SwapEncryption(id, env, map[])), id)
  {
    hide KeyOf, WellFormed, SoundRow, Recoded, KeyIsFresh;
    var db' := Effect(db, SwapEncryption(id, env, map[]));
    var f :| f in Rows(db, id);
    assert Agrees(db.contents[id], db.files[f]) && db'.files[f] == db.files[f];
    assert !Agrees(db'.contents[id], db'.files[f]);
  }

  lemma MetadataKeepsInconsistency(db: Db, w: Write, id: nat)
    requires w.SetMetadata? && id in db.contents
    ensures Consistent(Effect(db, w), id) <==> Consistent(db, id)
  {
    var db' := Effect(db, w);
    assert db'.files == db.files;
    assert forall file {:trigger Agrees(db.contents[id], file)} ::
        Agrees(db'.contents[id], file) <==> Agrees(db.contents[id], file);
  }

  /** The key changes with the envelope: it appears, disappears, or is the one drawn just now. */
  lemma SwapChangesKey(db: Db, p: UpdateParams, draw: Draw, id: nat)
    requires WellFormed(db) && id in db.contents && db.contents[id].slug == p.slug
    requires UpdatePlan(db, p, draw).writes != [] && ChangesEncryption(db.contents[id], p)
    requires KeyOf(db.contents[id]) != Some(draw.dek)
    ensures var w := UpdatePlan(db, p, draw).writes[0];
            w.SwapEncryption? && KeyOf(WithColumns(db.contents[id], w.env)) != KeyOf(db.contents[id])
  {
    LoadFinds(db, p.slug, id);
    var c := WithMetadata(Owned(db, p.slug, p.owner).value, p);
    ChangeAsked(db, c, p, draw);
    ChangePermitted(db, c, p, draw);
    EncryptedReadingsAgree(id, db.contents[id]);
    if c.encryption.Some? {
      UnwrapForEntry(db.contents[id], p.passphrase);
    }
  }

  /** The first k writes of the update end between its envelope change and the removal of the entry's old files. */
  ghost predicate InWindow(db: Db, p: UpdateParams, id: nat, k: nat) {
    SwapsUnderOldFiles(db, p, id) && 1 <= k <= 2
  }

  /**
   * The statement boundaries of an update of an entry that is consistent, exactly: after k writes it is consistent
   * unless the request changes the envelope of an entry with files while replacing those files, and the k writes are
   * the envelope change, with or without the metadata, but not yet the removal of the old files.
   */
  lemma UpdateCrashStates(db: Db, p: UpdateParams, draw: Draw, id: nat, k: nat)
    requires WellFormed(db) && Consistent(db, id) && id in Ids(db, p.slug)
    requires KeyOf(db.contents[id]) != Some(draw.dek)
    requires k <= |UpdatePlan(db, p, draw).writes|
    ensures Consistent(At(db, UpdatePlan(db, p, draw).writes, k), id) <==> !InWindow(db, p, id, k)
  {
    var ws := UpdatePlan(db, p, draw).writes;
    if InWindow(db, p, id, k) {
      UpdatePermitted(db, p, draw);
      PermittedEarlier(db, ws, p.owner, draw.dek, |ws|, k);
      UpdateHasShape(db, p, draw, id);
      SwapChangesKey(db, p, draw, id);
      WindowIsInconsistent(db, ws, p.owner, draw.dek, id, k);
    } else {
      UpdateKeepsConsistency(db, p, draw, id, k);
    }
  }

  /** Outside the window an update keeps every entry consistent that is, its own and all others, whatever it draws. */
  lemma UpdateKeepsConsistency(db: Db, p: UpdateParams, draw: Draw, id: nat, k: nat)
    requires WellFormed(db) && Consistent(db, id) && k <= |UpdatePlan(db, p, draw).writes|
    requires !(id in Ids(db, p.slug) && InWindow(db, p, id, k))
    ensures Consistent(At(db, UpdatePlan(db, p, draw).writes, k), id)
  {
    var ws := UpdatePlan(db, p, draw).writes;
    if k > 0 {
      var updated := UpdatedEntry(db, p, draw);
      UpdatePermitted(db, p, draw);
      PermittedEarlier(db, ws, p.owner, draw.dek, |ws|, k);
      UpdateHasShape(db, p, draw, updated);
      ShapeKeepsConsistency(db, ws, p, draw.dek, updated, id, k);
    }
  }

  lemma ShapeKeepsConsistency(db: Db, ws: seq<Write>, p: UpdateParams, dek: Dek, updated: nat, id: nat, k: nat)
    requires WellFormed(db) && Consistent(db, id) && 0 < k <= |ws| && PermittedUpTo(db, ws, p.owner, dek, k)
    requires updated in Ids(db, p.slug) && !(id == updated && InWindow(db, p, id, k))
    requires UpdateShape(db, ws, p, updated, if ChangesEncryption(db.contents[updated], p) then 1 else 0)
    ensures Consistent(At(db, ws, k), id)
  {
    if id == updated && SwapsUnderOldFiles(db, p, id) {
      FreshFilesConsistent(db, ws, p.owner, dek, id, 3, k);
    } else {
      assert At(db, ws, 0) == db;
      forall i: nat | i < k
        ensures !Outdates(At(db, ws, i), ws[i], id)
      {
        assert i > 0 ==> !ws[i].SwapEncryption?;
      }
      PlanKeepsConsistency(db, ws, p.owner, dek, id, k);
    }
  }

  lemma UpdatedEntry(db: Db, p: UpdateParams, draw: Draw) returns (id: nat)
    requires WellFormed(db) && UpdatePlan(db, p, draw).writes != []
    ensures id in Ids(db, p.slug)
  {
    OwnedStands(db, p.slug, p.owner);
    id := Owned(db, p.slug, p.owner).value.id;
  }

  lemma WindowIsInconsistent(db: Db, ws: seq<Write>, who: string, dek: Dek, id: nat, k: nat)
    requires 1 <= k <= 2 && k <= |ws| && WellFormed(db) && Consistent(db, id) && PermittedUpTo(db, ws, who, dek, k)
    requires Rows(db, id) != {}
    requires ws[0].SwapEncryption? && ws[0].id == id && ws[0].rewritten == map[] && (k == 2 ==> ws[1].SetMetadata?)
    requires id in db.contents && KeyOf(WithColumns(db.contents[id], ws[0].env)) != KeyOf(db.contents[id])
    ensures !Consistent(At(db, ws, k), id) && id in At(db, ws, k).contents
  {
    PermittedEarlier(db, ws, who, dek, k, 1);
    assert At(db, ws, 0) == db && PermittedUpTo(db, ws, who, dek, 0);
    var first := At(db, ws, 1);
    assert first == Effect(db, ws[0]);
    SwapAloneOutdates(db, id, ws[0].env, who, dek);
    if k == 2 {
      MetadataKeepsInconsistency(first, ws[1], id);
    }
  }

  /**
   * Recovery: whatever state an entry was left in, an update that replaces its files and gets past the removal
   * of the old ones puts it back in step, without disturbing any other entry.
   */
  lemma ReplacementRestores(db: Db, p: UpdateParams, draw: Draw, id: nat, k: nat)
    requires WellFormed(db) && id in Ids(db, p.slug) && p.Replaces()
    requires UpdatePlan(db, p, draw).writes != [] && k <= |UpdatePlan(db, p, draw).writes|
    requires k >= RemovalAt(db.contents[id], p)
    ensures Consistent(At(db, UpdatePlan(db, p, draw).writes, k), id)
    ensures forall id' :: id' != id && Consistent(db, id') ==>
              Consistent(At(db, UpdatePlan(db, p, draw).writes, k), id')
  {
    var ws := UpdatePlan(db, p, draw).writes;
    UpdatePermitted(db, p, draw);
    PermittedEarlier(db, ws, p.owner, draw.dek, |ws|, k);
    UpdateHasShape(db, p, draw, id);
    FreshFilesConsistent(db, ws, p.owner, draw.dek, id, RemovalAt(db.contents[id], p), k);
    forall id' | id' != id && Consistent(db, id')
      ensures Consistent(At(db, ws, k), id')
    {
      UpdateKeepsConsistency(db, p, draw, id', k);
    }
  }

  /** How many writes a file-replacing update has made when the old files are gone. */
  function RemovalAt(row: ContentRow, p: UpdateParams): nat {
    if ChangesEncryption(row, p) then 3 else 2
  }

  /**
   * The unconditional claim is false: encrypting a public one-page entry while replacing its page leaves, after
   * the first statement, an entry marked encrypted whose stored page is plain.
   */
  lemma CrashWindowExists(draw: Draw) returns (db: Db, p: UpdateParams)
    ensures Healthy(db)
    ensures var ws := UpdatePlan(db, p, draw).writes; |ws| > 0 && !Consistent(At(db, ws, 1), 1)
  {
    var slug: GoString := "a";
    var index := IndexFile([]);
    var row := ContentRow(slug, "owner", "", "", "", false, None, None, None);
    db := Db(map[1 := row], map[1 := FileRow(1, index.path, Bytes([]), "text/html")], 2, 2);
    p := UpdateParams(slug, "owner", None, None, None, None, Upload([0], "index.html", None), "secret", "", false);
    assert SoundRow(row) && Healthy(db);
    LoadFinds(db, slug, 1);
    assert EnvelopeOf(row).None?;
    assert Encrypt(db, WithMetadata(Owned(db, slug, "owner").value, p), "secret", true, draw).Ok?;
    assert 1 in Rows(db, 1);
    UpdateCrashStates(db, p, draw, 1, 1);
  }

  // ----- Runs -------------------------------------------------------------------------------------------------------

  /** The request stops with this entry's envelope changed and its old files still there. */
  ghost predicate Catches(db: Db, r: Request, k: nat, id: nat) {
    r.Update? && id in Ids(db, r.update.slug) && InWindow(db, r.update, id, k)
  }

  /** The request gets past the removal of this entry's old files, or of the entry itself. */
  ghost predicate Restores(db: Db, r: Request, k: nat, id: nat) {
    if r.Update? then
      && r.update.Replaces() && id in Ids(db, r.update.slug) && k <= |PlanOf(db, r).writes|
      && k >= RemovalAt(db.contents[id], r.update)
    else r.Delete? && id in Ids(db, r.slug) && k > 0
  }

  /** Wherever a request stops, an entry that was consistent is so afterwards, unless this very request catches it. */
  lemma StoppedKeepsConsistency(db: Db, r: Request, k: nat, undone: bool, id: nat)
    requires WellFormed(db) && Consistent(db, id) && MayStop(db, r, k, undone) && !Catches(db, r, k, id)
    ensures Consistent(After(db, Happened(db, r, k, undone)), id)
  {
    HappenedPermitted(db, r, k, undone);
    if r.Update? {
      UpdateKeepsConsistency(db, r.update, r.draw, id, k);
    } else {
      var ws := Happened(db, r, k, undone);
      OnlyUpdatesSwap(db, r, k, undone);
      PlanKeepsConsistency(db, ws, Who(r), r.draw.dek, id, |ws|);
    }
  }

  /** A request that gets past the removal of an entry's files leaves the entry consistent, whatever it was before. */
  lemma StoppedRestores(db: Db, r: Request, k: nat, undone: bool, id: nat)
    requires WellFormed(db) && MayStop(db, r, k, undone) && Restores(db, r, k, id)
    ensures Consistent(After(db, Happened(db, r, k, undone)), id)
  {
    HappenedPermitted(db, r, k, undone);
    if r.Update? {
      ReplacementRestores(db, r.update, r.draw, id, k);
    } else {
      DeletionOf(db, r.slug, r.owner, id);
    }
  }

  lemma DeletionOf(db: Db, slug: GoString, owner: string, id: nat)
    requires WellFormed(db) && id in Ids(db, slug) && DeletePlan(db, slug, owner).writes != []
    ensures DeletePlan(db, slug, owner).writes == [RemoveContent(id)]
    ensures id !in At(db, DeletePlan(db, slug, owner).writes, 1).contents
  {
    OwnedStands(db, slug, owner);
    OneWrite(db, RemoveContent(id));
  }

  /** Where a request stopped: after how many of its writes, and whether a creation was taken back. */
  datatype Stop = Stop(after: nat, undone: bool)

  /** A run with its stopping points on record. */
  ghost predicate IsStoppedRun(states: seq<Db>, requests: seq<Request>, stops: seq<Stop>) {
    && |states| == |requests| + 1 && |stops| == |requests|
    && forall j {:trigger requests[j]} :: 0 <= j < |requests| ==>
         Leaves(states[j], requests[j], stops[j].after, stops[j].undone, states[j + 1])
  }

  /** A stopping point of a request that left these tables. */
  ghost function StopOf(db: Db, r: Request, db': Db): (stop: Stop)
    requires MayLeave(db, r, db')
    ensures Leaves(db, r, stop.after, stop.undone, db')
  {
    var k: nat, undone :| Leaves(db, r, k, undone, db');
    Stop(k, undone)
  }

  /** Every run has stopping points. */
  lemma RunHasStops(states: seq<Db>, requests: seq<Request>) returns (stops: seq<Stop>)
    requires IsRun(states, requests)
    ensures IsStoppedRun(states, requests, stops)
  {
    hide Leaves, MayLeave;
    stops := seq(|requests|, j requires 0 <= j < |requests| => StopOf(states[j], requests[j], states[j + 1]));
  }

  lemma StoppedRunIsRun(states: seq<Db>, requests: seq<Request>, stops: seq<Stop>)
    requires IsStoppedRun(states, requests, stops)
    ensures IsRun(states, requests)
  {
    hide Leaves;
    forall j | 0 <= j < |requests|
      ensures MayLeave(states[j], requests[j], states[j + 1])
    {
      assert Leaves(states[j], requests[j], stops[j].after, stops[j].undone, states[j + 1]);
    }
  }

  /**
   * The entry is in the stretch from a request that caught it, or from a bad start, to the next one that restores it.
   */
  ghost predicate Exposed(states: seq<Db>, requests: seq<Request>, stops: seq<Stop>, id: nat, i: nat)
    requires |states| == |requests| + 1 && |stops| == |requests| && i < |states|
  {
    if i == 0 then !Consistent(states[0], id)
    else
      || Catches(states[i - 1], requests[i - 1], stops[i - 1].after, id)
      || (Exposed(states, requests, stops, id, i - 1)
          && !Restores(states[i - 1], requests[i - 1], stops[i - 1].after, id))
  }

  /**
   * Crash consistency of a whole run, entry by entry: an entry is consistent at every state outside the stretches from
   * an update that caught it to the next request that restores it, whatever happens to the other entries, wherever
   * requests stop and whatever they draw.
   */
  lemma {:induction false} EntriesStayInStep(states: seq<Db>, requests: seq<Request>, stops: seq<Stop>, id: nat, i: nat)
    requires IsStoppedRun(states, requests, stops) && i < |states| && WellFormed(states[0])
    ensures WellFormed(states[i])
    ensures !Exposed(states, requests, stops, id, i) ==> Consistent(states[i], id)
  {
    hide Consistent, WellFormed, Catches, Restores, MayStop, Happened;
    if i > 0 {
      var db, r, stop := states[i - 1], requests[i - 1], stops[i - 1];
      EntriesStayInStep(states, requests, stops, id, i - 1);
      assert Leaves(db, r, stop.after, stop.undone, states[i]);
      RequestKeepsForm(db, r, states[i]);
      if !Exposed(states, requests, stops, id, i) {
        if Exposed(states, requests, stops, id, i - 1) {
          StoppedRestores(db, r, stop.after, stop.undone, id);
        } else {
          StoppedKeepsConsistency(db, r, stop.after, stop.undone, id);
        }
      }
    }
  }

  /** Being caught is being out of step, when the update does not draw the key that the entry has. */
  lemma CaughtIsOutOfStep(db: Db, r: Request, k: nat, db': Db, id: nat)
    requires WellFormed(db) && Consistent(db, id) && Leaves(db, r, k, false, db') && Catches(db, r, k, id)
    requires KeyOf(db.contents[id]) != Some(r.draw.dek)
    ensures !Consistent(db', id)
  {
    HappenedPermitted(db, r, k, false);
    UpdateCrashStates(db, r.update, r.draw, id, k);
  }

  /** So a run in which no update is caught goes through healthy states only. */
  lemma RunsStayHealthy(states: seq<Db>, requests: seq<Request>, stops: seq<Stop>, i: nat)
    requires IsStoppedRun(states, requests, stops) && i < |states| && Healthy(states[0])
    requires forall j, id {:trigger Catches(states[j], requests[j], stops[j].after, id)} ::
               0 <= j < |requests| ==> !Catches(states[j], requests[j], stops[j].after, id)
    ensures Healthy(states[i])
  {
    EntriesStayInStep(states, requests, stops, 0, i);
    forall id | id in states[i].contents
      ensures Consistent(states[i], id)
    {
      NeverExposed(states, requests, stops, id, i);
      EntriesStayInStep(states, requests, stops, id, i);
    }
  }

  lemma {:induction false} NeverExposed(states: seq<Db>, requests: seq<Request>, stops: seq<Stop>, id: nat, i: nat)
    requires |states| == |requests| + 1 && |stops| == |requests| && i < |states|
    requires forall j {:trigger Catches(states[j], requests[j], stops[j].after, id)} ::
               0 <= j < |requests| ==> !Catches(states[j], requests[j], stops[j].after, id)
    requires Consistent(states[0], id)
    ensures !Exposed(states, requests, stops, id, i)
  {
    if i > 0 {
      NeverExposed(states, requests, stops, id, i - 1);
    }
  }
}
