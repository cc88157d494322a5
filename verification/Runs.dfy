/** Runs of requests, each of which may fail at any statement, and what no run can do to other people's entries. */
module Runs {
  import opened Wrappers
  import opened ByteStrings
  import opened Sealing
  import opened Store
  import opened Requests
  import opened Invariants
  import opened ContentService
  import Paths

  datatype Request =
    | Create(create: CreateParams, draw: Draw)
    | Update(update: UpdateParams, draw: Draw)
    | Delete(slug: GoString, owner: string, draw: Draw)

  function Who(r: Request): string {
    match r
    case Create(p, _) => p.owner
    case Update(p, _) => p.owner
    case Delete(_, owner, _) => owner
  }

  ghost function PlanOf(db: Db, r: Request): Plan {
    match r
    case Create(p, draw) => CreatePlan(db, p, draw)
    case Update(p, draw) => UpdatePlan(db, p, draw)
    case Delete(slug, owner, _) => DeletePlan(db, slug, owner)
  }

  /** The writes that happened when a request got k writes far, with or without a creation taken back. */
  ghost function Happened(db: Db, r: Request, k: nat, undone: bool): seq<Write>
    requires k <= |PlanOf(db, r).writes|
  {
    PlanOf(db, r).writes[..k] + if undone then [RemoveContent(db.nextContent)] else []
  }

  /** A creation can be taken back once its entry's row is in and before it is taken out anyway. */
  ghost predicate MayStop(db: Db, r: Request, k: nat, undone: bool) {
    && k <= |PlanOf(db, r).writes|
    && (undone ==> r.Create? && 0 < k <= 1 + |UploadedFiles(r.create.upload).files|)
  }

  /** db' is what the request leaves behind when it stops after k of its writes. */
  ghost predicate Leaves(db: Db, r: Request, k: nat, undone: bool, db': Db) {
    MayStop(db, r, k, undone) && db' == After(db, Happened(db, r, k, undone))
  }

  ghost predicate MayLeave(db: Db, r: Request, db': Db) {
    exists k: nat, undone :: Leaves(db, r, k, undone, db')
  }

  /** states[i + 1] is what requests[i] left behind, wherever it stopped. */
  ghost predicate IsRun(states: seq<Db>, requests: seq<Request>) {
    && |states| == |requests| + 1
    && forall i {:trigger requests[i]} :: 0 <= i < |requests| ==> MayLeave(states[i], requests[i], states[i + 1])
  }

  lemma PlanOfPermitted(db: Db, r: Request)
    requires WellFormed(db)
    ensures PlanPermitted(db, PlanOf(db, r).writes, Who(r), r.draw.dek)
  {
    match r
    case Create(p, draw) => CreatePermitted(db, p, draw);
    case Update(p, draw) => UpdatePermitted(db, p, draw);
    case Delete(slug, owner, draw) => DeletePermitted(db, slug, owner, draw.dek);
  }

  /** After k > 0 writes of a creation its own row is there, until the plan itself removes it. */
  lemma CreationStands(db: Db, p: CreateParams, draw: Draw, k: nat)
    requires 0 < k <= |CreatePlan(db, p, draw).writes| && k <= 1 + |UploadedFiles(p.upload).files|
    ensures OwnedBy(At(db, CreatePlan(db, p, draw).writes, k), db.nextContent, p.owner)
  {
    hide SoundRow, KeyOf, KeyIsFresh, PassphraseOf;
    var c := NewContent(p, db.nextContent, draw);
    var insert := InsertContent(RowOf(c));
    var fill := FillWrites(c, p.upload, NewKey(p, draw), db.nextFile, draw);
    NewContentSound(p, db.nextContent, draw);
    OneWrite(db, insert);
    FillPermitted(Effect(db, insert), c, p.upload, NewKey(p, draw), db.nextFile, draw, k - 1);
    hide FillWrites, NewContent, NewKey;
    AtConcat(db, [insert], fill, k - 1);
  }

  /** Wherever a request stops, what happened is a plan of permitted writes. */
  lemma HappenedPermitted(db: Db, r: Request, k: nat, undone: bool)
    requires WellFormed(db) && MayStop(db, r, k, undone)
    ensures PlanPermitted(db, Happened(db, r, k, undone), Who(r), r.draw.dek)
    ensures !undone ==> After(db, Happened(db, r, k, undone)) == At(db, PlanOf(db, r).writes, k)
  {
    var ws := PlanOf(db, r).writes;
    PlanOfPermitted(db, r);
    PermittedEarlier(db, ws, Who(r), r.draw.dek, |ws|, k);
    PermittedCut(db, ws, Who(r), r.draw.dek, k);
    assert ws[..k] + [] == ws[..k];
    if undone {
      var remove := RemoveContent(db.nextContent);
      CreationStands(db, r.create, r.draw, k);
      assert PermittedUpTo(After(db, ws[..k]), [remove], Who(r), r.draw.dek, 0);
      assert At(After(db, ws[..k]), [remove], 0) == At(db, ws, k);
      PermittedConcat(db, ws[..k], [remove], Who(r), r.draw.dek, 1);
    }
  }

  lemma {:induction false} PermittedCut(db: Db, ws: seq<Write>, who: string, dek: Dek, k: nat)
    requires k <= |ws| && PermittedUpTo(db, ws, who, dek, k)
    ensures PlanPermitted(db, ws[..k], who, dek) && After(db, ws[..k]) == At(db, ws, k)
  {
    AtPrefix(db, ws, ws[..k], k);
    PermittedShared(db, ws, ws[..k], who, dek, k);
  }

  lemma {:induction false} PermittedShared(db: Db, ws: seq<Write>, vs: seq<Write>, who: string, dek: Dek, k: nat)
    requires k <= |ws| && k <= |vs| && (forall i :: 0 <= i < k ==> ws[i] == vs[i]) && PermittedUpTo(db, ws, who, dek, k)
    ensures PermittedUpTo(db, vs, who, dek, k)
  {
    if k > 0 {
      PermittedShared(db, ws, vs, who, dek, k - 1);
      AtPrefix(db, ws, vs, k - 1);
    }
  }

  /** What the service's methods promise about a request, wherever it stopped, is a step of a run. */
  lemma StoppedRequestLeaves(db: Db, trail: seq<Db>, db': Db, trail': seq<Db>, r: Request, done: nat, undone: bool)
    requires ReachedOrUndone(db, trail, db', trail', PlanOf(db, r).writes, done, undone, db.nextContent)
    requires undone ==> r.Create? && 0 < done <= 1 + |UploadedFiles(r.create.upload).files|
    ensures Leaves(db, r, done, undone, db') && MayLeave(db, r, db')
  {
    hide PlanOf;
    var ws := PlanOf(db, r).writes;
    AtPrefix(db, ws, ws[..done], done);
    if undone {
      AtConcat(db, ws[..done], [RemoveContent(db.nextContent)], 1);
      OneWrite(At(db, ws, done), RemoveContent(db.nextContent));
    } else {
      assert ws[..done] + [] == ws[..done];
    }
  }

  /** The states between the statements of a request are the ones its record of writes shows. */
  lemma {:induction false} TrailShowsStates(db: Db, ws: seq<Write>, k: nat, i: nat)
    requires i < k <= |ws|
    ensures |TrailOf(db, ws, k)| == k && TrailOf(db, ws, k)[i] == At(db, ws, i + 1)
    decreases k
  {
    if i < k - 1 {
      TrailShowsStates(db, ws, k - 1, i);
    } else if k > 1 {
      TrailShowsStates(db, ws, k - 1, 0);
    }
  }

  lemma RequestKeepsForm(db: Db, r: Request, db': Db)
    requires WellFormed(db) && MayLeave(db, r, db')
    ensures WellFormed(db')
  {
    var k: nat, undone :| Leaves(db, r, k, undone, db');
    HappenedPermitted(db, r, k, undone);
    var ws := Happened(db, r, k, undone);
    PlanKeepsForm(db, ws, Who(r), r.draw.dek, |ws|);
  }

  /** Primary keys, foreign keys, unique slugs and whole envelopes survive every run, whatever fails in it. */
  lemma {:induction false} RunsKeepForm(states: seq<Db>, requests: seq<Request>, i: nat)
    requires IsRun(states, requests) && WellFormed(states[0]) && i < |states|
    ensures WellFormed(states[i])
  {
    if i > 0 {
      RunsKeepForm(states, requests, i - 1);
      RequestKeepsForm(states[i - 1], requests[i - 1], states[i]);
    }
  }

  /**
   * In every state of every run the two tests for "encrypted" agree on every row: the query's, and that of the scan,
   * which gives back the very envelope that was flattened into the row.
   */
  lemma ReadingsAgreeInRuns(states: seq<Db>, requests: seq<Request>, i: nat, id: nat)
    requires IsRun(states, requests) && WellFormed(states[0]) && i < |states| && id in states[i].contents
    ensures var row := states[i].contents[id];
            && ScanContent(id, row).Ok?
            && (MarkedEncrypted(row) <==> ScanContent(id, row).value.encryption.Some?)
            && RowOf(ScanContent(id, row).value) == row
            && (row.encKdf.Some? <==> row.encSalt.Some?) && (row.encKdf.Some? <==> row.encWrapped.Some?)
  {
    RunsKeepForm(states, requests, i);
    EncryptedReadingsAgree(id, states[i].contents[id]);
  }

  // ----- Slugs -------------------------------------------------------------------------------------------------

  ghost predicate SlugsValid(db: Db) {
    forall id :: id in db.contents ==> Paths.ValidSlug(db.contents[id].slug)
  }

  /** Only creations bring in entries, and they check the slug first. */
  lemma InsertsHaveValidSlugs(db: Db, r: Request, w: Write)
    requires w in PlanOf(db, r).writes && w.InsertContent?
    ensures Paths.ValidSlug(w.row.slug)
  {
    if r.Update? {
      UpdatesInsertNothing(db, r.update, r.draw, w);
    }
  }

  lemma UpdatesInsertNothing(db: Db, p: UpdateParams, draw: Draw, w: Write)
    requires w in UpdatePlan(db, p, draw).writes
    ensures !w.InsertContent?
  {
    hide EncryptionChange, UploadedFiles;
  }

  lemma {:induction false} WritesKeepSlugsValid(db: Db, ws: seq<Write>, k: nat)
    requires k <= |ws| && SlugsValid(db)
    requires forall w :: w in ws && w.InsertContent? ==> Paths.ValidSlug(w.row.slug)
    ensures SlugsValid(At(db, ws, k))
  {
    if k > 0 {
      WritesKeepSlugsValid(db, ws, k - 1);
    }
  }

  /** In every state of every run all stored slugs are valid. */
  lemma {:induction false} RunsKeepSlugsValid(states: seq<Db>, requests: seq<Request>, i: nat)
    requires IsRun(states, requests) && i < |states| && SlugsValid(states[0])
    ensures SlugsValid(states[i])
  {
    hide SlugsValid, PlanOf;
    if i > 0 {
      RunsKeepSlugsValid(states, requests, i - 1);
      var db, r := states[i - 1], requests[i - 1];
      var k: nat, undone :| Leaves(db, r, k, undone, states[i]);
      var ws := Happened(db, r, k, undone);
      forall w | w in ws && w.InsertContent?
        ensures Paths.ValidSlug(w.row.slug)
      {
        InsertsHaveValidSlugs(db, r, w);
      }
      WritesKeepSlugsValid(db, ws, |ws|);
    }
  }

  // ----- Ownership ---------------------------------------------------------------------------------------------

  /** The entry's row and all its file rows are the same in both. */
  ghost predicate SameRows(db: Db, db': Db, id: nat) {
    && id in db.contents && id in db'.contents && db'.contents[id] == db.contents[id]
    && Rows(db', id) == Rows(db, id)
    && forall f :: f in Rows(db, id) ==> db'.files[f] == db.files[f]
  }

  /** Identities never come back, and an entry keeps its slug and owner as long as it is there. */
  predicate SameIdentity(db: Db, db': Db) {
    && db.nextContent <= db'.nextContent
    && forall id :: id in db'.contents && id < db.nextContent ==>
                      && id in db.contents
                      && db'.contents[id].owner == db.contents[id].owner
                      && db'.contents[id].slug == db.contents[id].slug
  }

  lemma WriteKeepsIdentity(db: Db, w: Write)
    ensures SameIdentity(db, Effect(db, w))
  {
  }

  lemma {:induction false} WritesKeepIdentity(db: Db, ws: seq<Write>, k: nat)
    requires k <= |ws|
    ensures SameIdentity(db, At(db, ws, k))
  {
    if k > 0 {
      WritesKeepIdentity(db, ws, k - 1);
      WriteKeepsIdentity(At(db, ws, k - 1), ws[k - 1]);
    }
  }

  lemma RequestKeepsIdentity(db: Db, r: Request, db': Db)
    requires MayLeave(db, r, db')
    ensures SameIdentity(db, db')
  {
    var k: nat, undone :| Leaves(db, r, k, undone, db');
    var ws := Happened(db, r, k, undone);
    WritesKeepIdentity(db, ws, |ws|);
  }

  lemma WriteSparesOthers(db: Db, w: Write, who: string, dek: Dek, id: nat)
    requires WellFormed(db) && Permitted(db, w, who, dek)
    requires id in db.contents && db.contents[id].owner != who
    ensures SameRows(db, Effect(db, w), id)
  {
  }

  lemma {:induction false} WritesSpareOthers(db: Db, ws: seq<Write>, who: string, dek: Dek, id: nat, k: nat)
    requires k <= |ws| && WellFormed(db) && PermittedUpTo(db, ws, who, dek, k)
    requires id in db.contents && db.contents[id].owner != who
    ensures SameRows(db, At(db, ws, k), id)
  {
    if k > 0 {
      WritesSpareOthers(db, ws, who, dek, id, k - 1);
      PlanKeepsForm(db, ws, who, dek, k - 1);
      WriteSparesOthers(At(db, ws, k - 1), ws[k - 1], who, dek, id);
    }
  }

  /** A request changes nothing of an entry that is not its caller's, at any statement it may stop at. */
  lemma RequestSparesOthers(db: Db, r: Request, db': Db, id: nat)
    requires WellFormed(db) && MayLeave(db, r, db')
    requires id in db.contents && db.contents[id].owner != Who(r)
    ensures SameRows(db, db', id)
  {
    var k: nat, undone :| Leaves(db, r, k, undone, db');
    HappenedPermitted(db, r, k, undone);
    var ws := Happened(db, r, k, undone);
    WritesSpareOthers(db, ws, Who(r), r.draw.dek, id, |ws|);
  }

  /** Over any run without a request by its owner, an entry keeps its row, its envelope and all its files. */
  lemma {:induction false} OnlyOwnersChangeEntries(states: seq<Db>, requests: seq<Request>, id: nat, i: nat)
    requires IsRun(states, requests) && WellFormed(states[0]) && i < |states| && id in states[0].contents
    requires forall j :: 0 <= j < |requests| ==> Who(requests[j]) != states[0].contents[id].owner
    ensures SameRows(states[0], states[i], id)
  {
    if i > 0 {
      OnlyOwnersChangeEntries(states, requests, id, i - 1);
      RunsKeepForm(states, requests, i - 1);
      RequestSparesOthers(states[i - 1], requests[i - 1], states[i], id);
    }
  }

  /** Over any run, whoever's requests it is made of, an entry's owner and slug never change. */
  lemma {:induction false} OwnersNeverChange(states: seq<Db>, requests: seq<Request>, i: nat)
    requires IsRun(states, requests) && i < |states|
    ensures SameIdentity(states[0], states[i])
  {
    hide MayLeave;
    if i > 0 {
      OwnersNeverChange(states, requests, i - 1);
      RequestKeepsIdentity(states[i - 1], requests[i - 1], states[i]);
    }
  }

  /** Every refusal except that of a broken archive leaves all tables as they were. */
  lemma RefusalsWriteNothing(db: Db, r: Request)
    requires PlanOf(db, r).verdict.Err? && PlanOf(db, r).verdict.error != BadArchive
    ensures PlanOf(db, r).writes == []
  {
  }
}
