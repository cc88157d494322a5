/**
 * Keys handed out before an encryption change: once the change is through they open nothing again, whatever fails
 * later.
 */
module Revocation {
  import opened Wrappers
  import opened ByteStrings
  import opened Sealing
  import opened Store
  import opened Requests
  import opened Invariants
  import opened Runs
  import opened Crashes
  import opened Readers
  import Paths

  /** Nothing stored for the slug mentions the key: not its envelope, and no layer of any of its payloads. */
  ghost predicate Revoked(db: Db, slug: GoString, dek: seq<Byte>) {
    forall id :: id in db.contents && db.contents[id].slug == slug ==>
                   && KeyOf(db.contents[id]) != Some(dek)
                   && forall f :: f in db.files && db.files[f].contentId == id ==> Avoids(db.files[f].data, dek)
  }

  /** Re-encoding brings in no key but the new one. */
  lemma RecodedAvoids(oldKey: Option<Dek>, newKey: Option<Dek>, slug: GoString, file: FileRow, payload: Blob,
                      dek: seq<Byte>)
    requires Recoded(oldKey, newKey, slug, file, payload) && Avoids(file.data, dek) && newKey != Some(dek)
    ensures Avoids(payload, dek)
  {
  }

  lemma AgreeingAvoids(row: ContentRow, file: FileRow, dek: seq<Byte>)
    requires Agrees(row, file) && KeyOf(row) != Some(dek)
    ensures Avoids(file.data, dek)
  {
  }

  lemma WriteKeepsRevoked(db: Db, w: Write, who: string, drawn: Dek, slug: GoString, dek: seq<Byte>)
    requires WellFormed(db) && Permitted(db, w, who, drawn) && Revoked(db, slug, dek) && drawn != dek
    ensures Revoked(Effect(db, w), slug, dek)
  {
    if w.SwapEncryption? {
      SwapKeepsRevoked(db, w, who, drawn, slug, dek);
    } else if w.InsertFile? && db.contents[w.file.contentId].slug == slug {
      AgreeingAvoids(db.contents[w.file.contentId], w.file, dek);
    }
  }

  lemma SwapKeepsRevoked(db: Db, w: Write, who: string, drawn: Dek, slug: GoString, dek: seq<Byte>)
    requires WellFormed(db) && Permitted(db, w, who, drawn) && Revoked(db, slug, dek) && drawn != dek
    requires w.SwapEncryption?
    ensures Revoked(Effect(db, w), slug, dek)
  {
    var db' := Effect(db, w);
    if db.contents[w.id].slug == slug {
      forall f | f in db.files && db.files[f].contentId == w.id && f in w.rewritten
        ensures Avoids(db'.files[f].data, dek)
      {
        RecodedAvoids(KeyOf(db.contents[w.id]), KeyOf(db'.contents[w.id]), slug, db.files[f], w.rewritten[f], dek);
      }
    }
  }

  lemma {:induction false} WritesKeepRevoked(db: Db, ws: seq<Write>, who: string, drawn: Dek, slug: GoString,
                                             dek: seq<Byte>, k: nat)
    requires k <= |ws| && WellFormed(db) && PermittedUpTo(db, ws, who, drawn, k) && Revoked(db, slug, dek)
    requires drawn != dek
    ensures Revoked(At(db, ws, k), slug, dek)
  {
    if k > 0 {
      WritesKeepRevoked(db, ws, who, drawn, slug, dek, k - 1);
      PlanKeepsForm(db, ws, who, drawn, k - 1);
      WriteKeepsRevoked(At(db, ws, k - 1), ws[k - 1], who, drawn, slug, dek);
    }
  }

  lemma RequestKeepsRevoked(db: Db, r: Request, db': Db, slug: GoString, dek: seq<Byte>)
    requires WellFormed(db) && MayLeave(db, r, db') && Revoked(db, slug, dek) && r.draw.dek != dek
    ensures Revoked(db', slug, dek)
  {
    var k: nat, undone :| Leaves(db, r, k, undone, db');
    HappenedPermitted(db, r, k, undone);
    var ws := Happened(db, r, k, undone);
    WritesKeepRevoked(db, ws, Who(r), r.draw.dek, slug, dek, |ws|);
  }

  /** A revoked key stays revoked over the rest of every run that does not draw it again, wherever its requests stop. */
  lemma {:induction false} RevokedForever(states: seq<Db>, requests: seq<Request>, slug: GoString, dek: seq<Byte>,
                                          since: nat, i: nat)
    requires IsRun(states, requests) && WellFormed(states[0]) && since <= i < |states|
    requires Revoked(states[since], slug, dek)
    requires forall j :: since <= j < |requests| ==> requests[j].draw.dek != dek
    ensures Revoked(states[i], slug, dek)
  {
    hide Revoked, WellFormed, MayLeave;
    if since < i {
      RevokedForever(states, requests, slug, dek, since, i - 1);
      RunsKeepForm(states, requests, i - 1);
      RequestKeepsRevoked(states[i - 1], requests[i - 1], states[i], slug, dek);
    }
  }

  /** When the slug's entry is in step, a key is revoked as soon as the envelope does not hold it. */
  lemma ConsistentRevoked(db: Db, slug: GoString, dek: seq<Byte>)
    requires SlugConsistent(db, slug)
    requires forall id :: id in Ids(db, slug) ==> KeyOf(db.contents[id]) != Some(dek)
    ensures Revoked(db, slug, dek)
  {
    forall id | id in db.contents && db.contents[id].slug == slug
      ensures id in Ids(db, slug) && Consistent(db, id)
    {
      assert id in Ids(db, slug);
    }
    forall id, f | id in db.contents && db.contents[id].slug == slug && f in db.files && db.files[f].contentId == id
      ensures Avoids(db.files[f].data, dek)
    {
      assert Consistent(db, id);
      AgreeingAvoids(db.contents[id], db.files[f], dek);
    }
  }

  /**
   * When an update that rotates or removes the encryption of an entry revokes the key before it, exactly: from its
   * first statement on, unless it replaces files that are still there, and then from the removal of the old files on.
   */
  lemma RevocationStates(db: Db, p: UpdateParams, draw: Draw, id: nat, k: nat)
    requires WellFormed(db) && Consistent(db, id) && id in Ids(db, p.slug) && KeyOf(db.contents[id]).Some?
    requires KeyOf(db.contents[id]) != Some(draw.dek)
    requires UpdatePlan(db, p, draw).writes != [] && ChangesEncryption(db.contents[id], p)
    requires 1 <= k <= |UpdatePlan(db, p, draw).writes|
    ensures Revoked(At(db, UpdatePlan(db, p, draw).writes, k), p.slug, KeyOf(db.contents[id]).value) <==>
            !(p.Replaces() && Rows(db, id) != {} && k <= 2)
  {
    hide UpdatePlan, KeyOf;
    var ws := UpdatePlan(db, p, draw).writes;
    UpdateHasShape(db, p, draw, id);
    SwapChangesKey(db, p, draw, id);
    if p.Replaces() && Rows(db, id) != {} && k <= 2 {
      OldFilesKeepKey(db, ws, p.slug, id, k);
    } else {
      UpdateKeepsConsistency(db, p, draw, id, k);
      SwapOutcome(db, ws, p.slug, id, k);
      ConsistentRevoked(At(db, ws, k), p.slug, KeyOf(db.contents[id]).value);
    }
  }

  /** Files that an envelope change leaves alone still open with the key before it. */
  lemma OldFilesKeepKey(db: Db, ws: seq<Write>, slug: GoString, id: nat, k: nat)
    requires Consistent(db, id) && id in Ids(db, slug) && KeyOf(db.contents[id]).Some? && Rows(db, id) != {}
    requires 1 <= k <= 2 && k <= |ws|
    requires ws[0].SwapEncryption? && ws[0].rewritten == map[] && (k == 2 ==> ws[1].SetMetadata?)
    ensures !Revoked(At(db, ws, k), slug, KeyOf(db.contents[id]).value)
  {
    assert At(db, ws, 0) == db && At(db, ws, 1) == Effect(db, ws[0]);
    var f :| f in Rows(db, id);
    assert Agrees(db.contents[id], db.files[f]);
    var db' := At(db, ws, k);
    assert id in db'.contents && db'.contents[id].slug == slug && f in db'.files && db'.files[f] == db.files[f];
    assert !Avoids(db'.files[f].data, KeyOf(db.contents[id]).value);
  }

  /** In particular, once all its statements are through, the update has revoked the key before it. */
  lemma ChangeRevokes(db: Db, p: UpdateParams, draw: Draw, id: nat)
    requires WellFormed(db) && Consistent(db, id) && id in Ids(db, p.slug) && KeyOf(db.contents[id]).Some?
    requires KeyOf(db.contents[id]) != Some(draw.dek)
    requires UpdatePlan(db, p, draw).writes != [] && ChangesEncryption(db.contents[id], p)
    ensures var db' := After(db, UpdatePlan(db, p, draw).writes);
            WellFormed(db') && Consistent(db', id) && Revoked(db', p.slug, KeyOf(db.contents[id]).value)
  {
    hide UpdatePlan, KeyOf;
    var ws := UpdatePlan(db, p, draw).writes;
    UpdateHasShape(db, p, draw, id);
    UpdateKeepsConsistency(db, p, draw, id, |ws|);
    UpdatePermitted(db, p, draw);
    PlanKeepsForm(db, ws, p.owner, draw.dek, |ws|);
    RevocationStates(db, p, draw, id, |ws|);
  }

  /** The key that the first write brings in stays, and no other entry has or takes the slug. */
  lemma SwapOutcome(db: Db, ws: seq<Write>, slug: GoString, id: nat, k: nat)
    requires Constrained(db) && id in Ids(db, slug) && 1 <= k <= |ws| && ws[0].SwapEncryption? && ws[0].id == id
    requires KeyOf(WithColumns(db.contents[id], ws[0].env)) != KeyOf(db.contents[id])
    requires forall i :: 1 <= i < |ws| ==> !ws[i].SwapEncryption? && !ws[i].InsertContent? && !ws[i].RemoveContent?
    ensures Ids(At(db, ws, k), slug) == {id}
    ensures KeyOf(At(db, ws, k).contents[id]) != KeyOf(db.contents[id])
  {
    assert At(db, ws, 0) == db && At(db, ws, 1) == Effect(db, ws[0]);
    EnvelopeStands(db, ws, id, k);
    SlugsStand(db, ws, k);
    hide Effect;
    forall i | i in Ids(At(db, ws, k), slug)
      ensures i == id
    {
    }
  }

  lemma {:induction false} SlugsStand(db: Db, ws: seq<Write>, k: nat)
    requires k <= |ws| && forall i :: 0 <= i < |ws| ==> !ws[i].InsertContent?
    ensures forall i :: i in At(db, ws, k).contents ==>
              i in db.contents && At(db, ws, k).contents[i].slug == db.contents[i].slug
  {
    if k > 0 {
      SlugsStand(db, ws, k - 1);
    }
  }

  /** After the first write of such an update the entry's columns stay put. */
  lemma {:induction false} EnvelopeStands(db: Db, ws: seq<Write>, id: nat, k: nat)
    requires 1 <= k <= |ws| && id in At(db, ws, 1).contents
    requires forall i :: 1 <= i < |ws| ==> !ws[i].SwapEncryption? && !ws[i].InsertContent? && !ws[i].RemoveContent?
    ensures id in At(db, ws, k).contents && SameEntry(At(db, ws, 1).contents[id], At(db, ws, k).contents[id])
    ensures At(db, ws, k).contents.Keys == At(db, ws, 1).contents.Keys
  {
    if k > 1 {
      EnvelopeStands(db, ws, id, k - 1);
    }
  }

  /** A deletion revokes every key of the slug, also for entries created under the same slug later. */
  lemma DeletionRevokes(db: Db, slug: GoString, owner: string, dek: seq<Byte>)
    requires WellFormed(db) && DeletePlan(db, slug, owner).verdict.Ok?
    ensures Revoked(After(db, DeletePlan(db, slug, owner).writes), slug, dek)
    ensures Ids(After(db, DeletePlan(db, slug, owner).writes), slug) == {}
  {
    OwnedStands(db, slug, owner);
    OneWrite(db, RemoveContent(Owned(db, slug, owner).value.id));
  }

  /** A revoked key reads nothing: stored paths of an encrypted entry answer "corrupted" and never a plaintext. */
  lemma RevokedReadsNothing(db: Db, slug: GoString, dek: seq<Byte>, id: nat, path: GoString)
    requires WellFormed(db) && Revoked(db, slug, dek) && dek != []
    requires id in Ids(db, slug) && KeyOf(db.contents[id]).Some? && Hits(db, slug, path) != {}
    requires !Paths.Contains(path, "..")
    ensures Answers(db, slug, path, dek) == {Refused(Corrupted)}
  {
    HitsAreRows(db, slug, path, id);
    forall f | f in Hits(db, slug, path)
      ensures AnswerFor(Joined(db, f), slug, path, dek) == Refused(Corrupted)
    {
      assert Avoids(db.files[f].data, dek);
    }
    var f :| f in Hits(db, slug, path);
    assert AnswerFor(Joined(db, f), slug, path, dek) in Answers(db, slug, path, dek);
  }

  /**
   * Over a whole run: a key that Unlock handed out, and that the slug's entry no longer held at some later state in
   * which it was in step, opens no stored path of that slug at any state from then on, whatever fails on the way and
   * whatever becomes of other entries.
   */
  lemma PastEpochsAreDead(states: seq<Db>, requests: seq<Request>, slug: GoString, passphrase: string, path: GoString,
                          handed: nat, changed: nat, now: nat, id: nat)
    requires IsRun(states, requests) && WellFormed(states[0]) && handed <= changed <= now < |states|
    requires UnlockResult(states[handed], slug, passphrase).Ok?
    requires var dek := UnlockResult(states[handed], slug, passphrase).value;
             && SlugConsistent(states[changed], slug)
             && (forall i :: i in Ids(states[changed], slug) ==> KeyOf(states[changed].contents[i]) != Some(dek))
             && (forall j :: changed <= j < |requests| ==> requests[j].draw.dek != dek)
    requires id in Ids(states[now], slug) && KeyOf(states[now].contents[id]).Some?
    requires Hits(states[now], slug, path) != {} && !Paths.Contains(path, "..")
    ensures Answers(states[now], slug, path, UnlockResult(states[handed], slug, passphrase).value) ==
            {Refused(Corrupted)}
  {
    hide UnlockResult, Revoked, SlugConsistent, Answers, Hits;
    var dek := UnlockResult(states[handed], slug, passphrase).value;
    ConsistentRevoked(states[changed], slug, dek);
    RevokedForever(states, requests, slug, dek, changed, now);
    RunsKeepForm(states, requests, now);
    RevokedReadsNothing(states[now], slug, dek, id, path);
  }

  /** The same from what happened alone: later no update had caught the entry when it no longer held the key. */
  lemma LeftBehindIsDead(states: seq<Db>, requests: seq<Request>, stops: seq<Stop>, slug: GoString, passphrase: string,
                         path: GoString, handed: nat, changed: nat, now: nat, id: nat)
    requires IsStoppedRun(states, requests, stops) && WellFormed(states[0]) && handed <= changed <= now < |states|
    requires UnlockResult(states[handed], slug, passphrase).Ok?
    requires var dek := UnlockResult(states[handed], slug, passphrase).value;
             && (forall i {:trigger Exposed(states, requests, stops, i, changed)} :: i in Ids(states[changed], slug) ==>
                   !Exposed(states, requests, stops, i, changed) && KeyOf(states[changed].contents[i]) != Some(dek))
             && (forall j :: changed <= j < |requests| ==> requests[j].draw.dek != dek)
    requires id in Ids(states[now], slug) && KeyOf(states[now].contents[id]).Some?
    requires Hits(states[now], slug, path) != {} && !Paths.Contains(path, "..")
    ensures Answers(states[now], slug, path, UnlockResult(states[handed], slug, passphrase).value) ==
            {Refused(Corrupted)}
  {
    hide UnlockResult, Exposed, Answers, Hits, WellFormed, Consistent, KeyOf;
    forall i | i in Ids(states[changed], slug)
      ensures Consistent(states[changed], i) && KeyOf(states[changed].contents[i]) !=
                                                Some(UnlockResult(states[handed], slug, passphrase).value)
    {
      assert !Exposed(states, requests, stops, i, changed);
      EntriesStayInStep(states, requests, stops, i, changed);
    }
    StoppedRunIsRun(states, requests, stops);
    PastEpochsAreDead(states, requests, slug, passphrase, path, handed, changed, now, id);
  }
}
