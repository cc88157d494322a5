/** What visitors see: with the current key, with an old key, with no key, and in the middle of an update. */
module Readers {
  import opened Wrappers
  import opened ByteStrings
  import opened Sealing
  import opened Store
  import opened Requests
  import opened Invariants
  import opened Crashes
  import Paths

  /** What the visitor's passphrase yields, in terms of the entry alone. */
  lemma UnlockIsExact(db: Db, slug: GoString, id: nat, passphrase: string)
    requires WellFormed(db) && id in Ids(db, slug)
    ensures var row := db.contents[id];
            UnlockResult(db, slug, passphrase) ==
            if PassphraseOf(row).None? then Err(NotEncrypted)
            else if passphrase == "" then Err(PassphraseRequired)
            else if Some(passphrase) == PassphraseOf(row) then Ok(KeyOf(row).value)
            else Err(WrongPassphrase)
  {
    LoadFinds(db, slug, id);
    EncryptedReadingsAgree(id, db.contents[id]);
    if EnvelopeOf(db.contents[id]).Some? {
      UnwrapForEntry(db.contents[id], passphrase);
    }
  }

  /** The plaintext of a stored file, as its entry's key gives it; nothing when the key does not open the file. */
  function PlaintextOf(row: ContentRow, file: FileRow): seq<Byte> {
    match Decode(KeyOf(row), row.slug, file.path, file.data)
    case Some(Bytes(plain)) => plain
    case _ => []
  }

  lemma HitsAreRows(db: Db, slug: GoString, path: GoString, id: nat)
    requires Constrained(db) && id in Ids(db, slug)
    ensures Hits(db, slug, path) == set f | f in Rows(db, id) && db.files[f].path == path
  {
  }

  /** One stored file as one visitor gets it: every case of key and entry. */
  lemma AnswerIsExact(row: ContentRow, file: FileRow, dek: seq<Byte>)
    requires SoundRow(row) && Agrees(row, file)
    ensures AnswerFor((file, row.allowExternal, MarkedEncrypted(row)), row.slug, file.path, dek) ==
            if KeyOf(row).None? then Served(Bytes(PlaintextOf(row, file)), file.contentType, row.allowExternal, false)
            else if dek == [] then Refused(PassphraseRequired)
            else if dek == KeyOf(row).value then
              Served(Bytes(PlaintextOf(row, file)), file.contentType, row.allowExternal, true)
            else Refused(Corrupted)
  {
  }

  /**
   * With the key that the current passphrase unlocks, a read of a stored path gives exactly the plaintexts
   * stored under that path. With any other key it gives none of them.
   */
  lemma ReadsAreExact(db: Db, slug: GoString, id: nat, path: GoString, dek: seq<Byte>)
    requires WellFormed(db) && Consistent(db, id) && id in Ids(db, slug) && !Paths.Contains(path, "..")
    requires Hits(db, slug, path) != {}
    ensures var row := db.contents[id];
            Answers(db, slug, path, dek) ==
            if KeyOf(row).Some? && dek == [] then {Refused(PassphraseRequired)}
            else if KeyOf(row).Some? && dek != KeyOf(row).value then {Refused(Corrupted)}
            else set f | f in Rows(db, id) && db.files[f].path == path ::
                   Served(Bytes(PlaintextOf(row, db.files[f])), db.files[f].contentType, row.allowExternal,
                          KeyOf(row).Some?)
  {
    var row := db.contents[id];
    HitsAreRows(db, slug, path, id);
    forall f | f in Hits(db, slug, path)
      ensures Joined(db, f) == (db.files[f], row.allowExternal, MarkedEncrypted(row)) && Agrees(row, db.files[f])
      ensures AnswerFor(Joined(db, f), slug, path, dek) ==
              if KeyOf(row).None? then
                Served(Bytes(PlaintextOf(row, db.files[f])), db.files[f].contentType, row.allowExternal, false)
              else if dek == [] then Refused(PassphraseRequired)
              else if dek == KeyOf(row).value then
                Served(Bytes(PlaintextOf(row, db.files[f])), db.files[f].contentType, row.allowExternal, true)
              else Refused(Corrupted)
    {
      AnswerIsExact(row, db.files[f], dek);
    }
    var f :| f in Hits(db, slug, path);
    assert AnswerFor(Joined(db, f), slug, path, dek) in Answers(db, slug, path, dek);
  }

  /** Without a key, an encrypted entry answers every path the same way, stored or not. */
  lemma LockedAnswersAreUniform(db: Db, slug: GoString, id: nat, path: GoString)
    requires WellFormed(db) && id in Ids(db, slug) && KeyOf(db.contents[id]).Some?
    ensures Answers(db, slug, path, []) ==
            {Refused(if Paths.Contains(path, "..") then InvalidFilePath else PassphraseRequired)}
  {
    LoadFinds(db, slug, id);
    EncryptedReadingsAgree(id, db.contents[id]);
    HitsAreRows(db, slug, path, id);
    if Hits(db, slug, path) != {} {
      var f :| f in Hits(db, slug, path);
      assert AnswerFor(Joined(db, f), slug, path, []) == Refused(PassphraseRequired);
    }
  }

  /** So two databases that differ only in the files of a locked entry cannot be told apart by reading it. */
  lemma LayoutIndependence(db: Db, db': Db, slug: GoString, id: nat, path: GoString)
    requires WellFormed(db) && WellFormed(db') && db'.contents == db.contents
    requires id in Ids(db, slug) && KeyOf(db.contents[id]).Some?
    ensures Answers(db, slug, path, []) == Answers(db', slug, path, [])
  {
    assert id in Ids(db', slug);
    LockedAnswersAreUniform(db, slug, id, path);
    LockedAnswersAreUniform(db', slug, id, path);
  }

  /**
   * Exactly without a key. A visitor with one, current or not, does see what is stored: a path that is missing is "not
   * found" to that visitor, and a path that is stored is not.
   */
  lemma LayoutIndependenceExact(db: Db, slug: GoString, id: nat, path: GoString, dek: seq<Byte>)
    requires WellFormed(db) && id in Ids(db, slug) && KeyOf(db.contents[id]).Some? && !Paths.Contains(path, "..")
    ensures (forall db' :: WellFormed(db') && db'.contents == db.contents ==>
                             Answers(db', slug, path, dek) == Answers(db, slug, path, dek)) <==> dek == []
    ensures dek != [] ==> (Refused(NotFound) in Answers(db, slug, path, dek) <==> Hits(db, slug, path) == {})
  {
    KeyShowsLayout(db, slug, id, path, dek);
    if dek == [] {
      forall db' | WellFormed(db') && db'.contents == db.contents
        ensures Answers(db', slug, path, dek) == Answers(db, slug, path, dek)
      {
        LayoutIndependence(db, db', slug, id, path);
      }
    } else {
      var other := OtherLayout(db, slug, id, path);
      KeyShowsLayout(other, slug, id, path, dek);
      assert Answers(other, slug, path, dek) != Answers(db, slug, path, dek);
    }
  }

  lemma KeyShowsLayout(db: Db, slug: GoString, id: nat, path: GoString, dek: seq<Byte>)
    requires WellFormed(db) && id in Ids(db, slug) && KeyOf(db.contents[id]).Some? && !Paths.Contains(path, "..")
    ensures dek != [] ==> (Refused(NotFound) in Answers(db, slug, path, dek) <==> Hits(db, slug, path) == {})
  {
  }

  /** The same entries with the path stored if it was not, and not if it was. */
  lemma OtherLayout(db: Db, slug: GoString, id: nat, path: GoString) returns (other: Db)
    requires WellFormed(db) && id in Ids(db, slug)
    ensures WellFormed(other) && other.contents == db.contents
    ensures Hits(other, slug, path) == {} <==> Hits(db, slug, path) != {}
  {
    if Hits(db, slug, path) == {} {
      other := db.(files := map[0 := FileRow(id, path, Bytes([]), "")], nextFile := 1);
      assert 0 in Hits(other, slug, path);
    } else {
      other := db.(files := map[]);
    }
  }

  // ----- Reading during an update ----------------------------------------------------------------------------------

  /** A stored path is answered from the file rows, the encryption mark and the flag alone. */
  lemma SameInputsSameAnswers(db: Db, db': Db, slug: GoString, id: nat, path: GoString, dek: seq<Byte>)
    requires Constrained(db) && Constrained(db') && id in Ids(db, slug) && id in Ids(db', slug) && db'.files == db.files
    requires db'.contents[id].allowExternal == db.contents[id].allowExternal
    requires MarkedEncrypted(db'.contents[id]) == MarkedEncrypted(db.contents[id])
    requires Hits(db, slug, path) != {}
    ensures Answers(db', slug, path, dek) == Answers(db, slug, path, dek)
  {
    HitsAreRows(db, slug, path, id);
    HitsAreRows(db', slug, path, id);
    assert Hits(db', slug, path) == Hits(db, slug, path);
    assert forall f :: f in Hits(db, slug, path) ==> Joined(db', f) == Joined(db, f);
  }

  /** The update changes both the envelope and the flag that the read reports. */
  predicate ChangesBoth(row: ContentRow, p: UpdateParams) {
    ChangesEncryption(row, p) && NewFlag(row, p) != row.allowExternal
  }

  /** The two writes of such an update: the middle state has the new payloads and the old metadata. */
  ghost predicate MidUpdate(db: Db, ws: seq<Write>, slug: GoString, id: nat)
    requires id in db.contents
  {
    && |ws| == 2 && ws[1].SetMetadata? && ws[1].id == id
    && var mid, end := At(db, ws, 1), At(db, ws, 2);
    && end == Effect(mid, ws[1]) && Constrained(mid) && Constrained(end)
    && id in Ids(mid, slug) && id in Ids(end, slug) && mid.contents[id].allowExternal == db.contents[id].allowExternal
    && SamePlaces(db, mid)
  }

  /** Every file row is still there, under the same path of the same entry. */
  ghost predicate SamePlaces(db: Db, db': Db) {
    forall f :: f in db.files ==>
                  && f in db'.files && db'.files[f].path == db.files[f].path
                  && db'.files[f].contentId == db.files[f].contentId
  }

  lemma TwoWritesHaveMiddle(db: Db, ws: seq<Write>, slug: GoString, id: nat)
    requires Constrained(db) && id in Ids(db, slug)
    requires |ws| == 2 && ws[0].SwapEncryption? && ws[0].id == id && ws[1].SetMetadata? && ws[1].id == id
    ensures MidUpdate(db, ws, slug, id)
  {
    var mid := Effect(db, ws[0]);
    assert At(db, ws, 0) == db && At(db, ws, 1) == mid && At(db, ws, 2) == Effect(mid, ws[1]);
    EffectKeepsConstraints(db, ws[0]);
    EffectKeepsConstraints(mid, ws[1]);
  }

  lemma UpdateHasMiddle(db: Db, p: UpdateParams, draw: Draw, id: nat)
    requires WellFormed(db) && id in Ids(db, p.slug) && !p.Replaces()
    ensures var ws := UpdatePlan(db, p, draw).writes;
            && |ws| <= 2
            && (|ws| == 2 ==> MidUpdate(db, ws, p.slug, id) && ws[1].allowExternal == NewFlag(db.contents[id], p)
                              && ChangesEncryption(db.contents[id], p))
  {
    var ws := UpdatePlan(db, p, draw).writes;
    if ws != [] {
      UpdateHasShape(db, p, draw, id);
      ShapeHasMiddle(db, ws, p, id);
    }
  }

  lemma ShapeHasMiddle(db: Db, ws: seq<Write>, p: UpdateParams, id: nat)
    requires Constrained(db) && id in Ids(db, p.slug) && !p.Replaces()
    requires UpdateShape(db, ws, p, id, if ChangesEncryption(db.contents[id], p) then 1 else 0)
    ensures |ws| <= 2
    ensures |ws| == 2 ==> MidUpdate(db, ws, p.slug, id) && ws[1].allowExternal == NewFlag(db.contents[id], p)
                          && ChangesEncryption(db.contents[id], p)
  {
    if |ws| == 2 {
      TwoWritesHaveMiddle(db, ws, p.slug, id);
    }
  }

  lemma BoundaryAnswers(db: Db, ws: seq<Write>, slug: GoString, id: nat, path: GoString, dek: seq<Byte>, k: nat)
    requires Constrained(db) && id in Ids(db, slug) && k <= |ws| <= 2 && Hits(db, slug, path) != {}
    requires |ws| == 2 ==> MidUpdate(db, ws, slug, id) && ws[1].allowExternal == db.contents[id].allowExternal
    ensures || Answers(At(db, ws, k), slug, path, dek) == Answers(db, slug, path, dek)
            || Answers(At(db, ws, k), slug, path, dek) == Answers(After(db, ws), slug, path, dek)
  {
    if 0 < k < |ws| {
      MidAnswers(db, At(db, ws, 1), At(db, ws, 2), ws[1], slug, id, path, dek);
    }
  }

  /**
   * A read of a stored path at any statement boundary of an update without replacement files answers exactly as
   * before the update or exactly as after it, unless the update changes the envelope and the flag together.
   */
  lemma SnapshotReads(db: Db, p: UpdateParams, draw: Draw, id: nat, path: GoString, dek: seq<Byte>, k: nat)
    requires WellFormed(db) && id in Ids(db, p.slug) && !p.Replaces() && Hits(db, p.slug, path) != {}
    requires k <= |UpdatePlan(db, p, draw).writes|
    requires !ChangesBoth(db.contents[id], p)
    ensures var ws := UpdatePlan(db, p, draw).writes;
            || Answers(At(db, ws, k), p.slug, path, dek) == Answers(db, p.slug, path, dek)
            || Answers(At(db, ws, k), p.slug, path, dek) == Answers(After(db, ws), p.slug, path, dek)
  {
    UpdateHasMiddle(db, p, draw, id);
    BoundaryAnswers(db, UpdatePlan(db, p, draw).writes, p.slug, id, path, dek, k);
  }

  lemma MidAnswers(db: Db, mid: Db, end: Db, w: Write, slug: GoString, id: nat, path: GoString, dek: seq<Byte>)
    requires Constrained(db) && Constrained(mid) && Constrained(end)
    requires id in Ids(db, slug) && id in Ids(mid, slug) && id in Ids(end, slug) && Hits(db, slug, path) != {}
    requires SamePlaces(db, mid)
    requires w.SetMetadata? && w.id == id && w.allowExternal == mid.contents[id].allowExternal && end == Effect(mid, w)
    ensures Answers(mid, slug, path, dek) == Answers(end, slug, path, dek)
  {
    HitsSurvive(db, mid, slug, path, id);
    SameInputsSameAnswers(mid, end, slug, id, path, dek);
  }

  lemma AllServedOnce(db: Db, slug: GoString, id: nat, path: GoString, dek: seq<Byte>) returns (answer: Answer)
    requires WellFormed(db) && Consistent(db, id) && id in Ids(db, slug) && !Paths.Contains(path, "..")
    requires Hits(db, slug, path) != {}
    requires KeyOf(db.contents[id]).Some? ==> dek == KeyOf(db.contents[id]).value
    ensures answer in Answers(db, slug, path, dek)
    ensures forall a :: a in Answers(db, slug, path, dek) ==>
              && a.Served? && a.allowExternal == db.contents[id].allowExternal
              && a.encrypted == KeyOf(db.contents[id]).Some?
  {
    ReadsAreExact(db, slug, id, path, dek);
    HitsAreRows(db, slug, path, id);
    var f :| f in Hits(db, slug, path);
    answer := AnswerFor(Joined(db, f), slug, path, dek);
  }

  /** Three states of one entry: the key differs between the first two, the flag between the last two. */
  lemma TornStates(db: Db, mid: Db, end: Db, slug: GoString, id: nat, path: GoString) returns (dek: seq<Byte>)
    requires WellFormed(db) && WellFormed(mid) && WellFormed(end) && !Paths.Contains(path, "..")
    requires id in Ids(db, slug) && id in Ids(mid, slug) && id in Ids(end, slug)
    requires Hits(db, slug, path) != {} && Hits(mid, slug, path) != {} && Hits(end, slug, path) != {}
    requires Consistent(db, id) && Consistent(mid, id) && Consistent(end, id)
    requires KeyOf(mid.contents[id]) != KeyOf(db.contents[id]) && KeyOf(end.contents[id]) == KeyOf(mid.contents[id])
    requires end.contents[id].allowExternal != mid.contents[id].allowExternal
    ensures Answers(mid, slug, path, dek) != Answers(db, slug, path, dek)
    ensures Answers(mid, slug, path, dek) != Answers(end, slug, path, dek)
  {
    dek := if KeyOf(mid.contents[id]).Some? then KeyOf(mid.contents[id]).value else [];
    var a := AllServedOnce(mid, slug, id, path, dek);
    var b := AllServedOnce(end, slug, id, path, dek);
    assert a !in Answers(end, slug, path, dek);
    assert a !in Answers(db, slug, path, dek) by {
      OtherKeyAnswers(db, slug, id, path, KeyOf(mid.contents[id]));
    }
  }

  /** With another key state than the entry's, a visitor sees nothing that the other state would serve. */
  lemma OtherKeyAnswers(db: Db, slug: GoString, id: nat, path: GoString, other: Option<Dek>)
    requires WellFormed(db) && Consistent(db, id) && id in Ids(db, slug) && !Paths.Contains(path, "..")
    requires Hits(db, slug, path) != {}
    requires other != KeyOf(db.contents[id])
    ensures forall a :: a in Answers(db, slug, path, if other.Some? then other.value else []) && a.Served? ==>
                          a.encrypted != other.Some?
  {
    var dek := if other.Some? then other.value else [];
    if KeyOf(db.contents[id]).None? {
      var c := AllServedOnce(db, slug, id, path, dek);
    } else {
      ReadsAreExact(db, slug, id, path, dek);
    }
  }

  lemma HitsSurvive(db: Db, db': Db, slug: GoString, path: GoString, id: nat)
    requires Constrained(db) && Constrained(db') && id in Ids(db, slug) && id in Ids(db', slug)
    requires SamePlaces(db, db')
    ensures Hits(db, slug, path) <= Hits(db', slug, path)
  {
    HitsAreRows(db, slug, path, id);
    HitsAreRows(db', slug, path, id);
  }

  /** When both change, a visitor with the new key, or with none after a decryption, sees a mixed state. */
  lemma TornRead(db: Db, p: UpdateParams, draw: Draw, id: nat, path: GoString) returns (dek: seq<Byte>)
    requires WellFormed(db) && Consistent(db, id) && id in Ids(db, p.slug) && !p.Replaces()
    requires !Paths.Contains(path, "..")
    requires Hits(db, p.slug, path) != {}
    requires UpdatePlan(db, p, draw).writes != [] && ChangesBoth(db.contents[id], p)
    requires KeyOf(db.contents[id]) != Some(draw.dek)
    ensures var ws := UpdatePlan(db, p, draw).writes;
            && |ws| == 2
            && Answers(At(db, ws, 1), p.slug, path, dek) != Answers(db, p.slug, path, dek)
            && Answers(At(db, ws, 1), p.slug, path, dek) != Answers(After(db, ws), p.slug, path, dek)
  {
    var ws := UpdatePlan(db, p, draw).writes;
    UpdateHasShape(db, p, draw, id);
    SwapChangesKey(db, p, draw, id);
    UpdateHasMiddle(db, p, draw, id);
    UpdateKeepsConsistency(db, p, draw, id, 1);
    UpdateKeepsConsistency(db, p, draw, id, 2);
    UpdatePermitted(db, p, draw);
    PermittedEarlier(db, ws, p.owner, draw.dek, 2, 1);
    PlanKeepsForm(db, ws, p.owner, draw.dek, 1);
    PlanKeepsForm(db, ws, p.owner, draw.dek, 2);
    var mid, end := At(db, ws, 1), At(db, ws, 2);
    assert At(db, ws, 0) == db && mid == Effect(db, ws[0]);
    HitsSurvive(db, mid, p.slug, path, id);
    HitsSurvive(db, end, p.slug, path, id);
    dek := TornStates(db, mid, end, p.slug, id, path);
  }

  /** Exactly the updates that change envelope and flag together can be read half done. */
  lemma SnapshotReadsExact(db: Db, p: UpdateParams, draw: Draw, id: nat, path: GoString)
    requires WellFormed(db) && Consistent(db, id) && id in Ids(db, p.slug) && !p.Replaces()
    requires !Paths.Contains(path, "..")
    requires Hits(db, p.slug, path) != {}
    requires UpdatePlan(db, p, draw).writes != [] && KeyOf(db.contents[id]) != Some(draw.dek)
    ensures var ws := UpdatePlan(db, p, draw).writes;
            (forall k: nat, dek :: k <= |ws| ==>
               || Answers(At(db, ws, k), p.slug, path, dek) == Answers(db, p.slug, path, dek)
               || Answers(At(db, ws, k), p.slug, path, dek) == Answers(After(db, ws), p.slug, path, dek))
            <==> !ChangesBoth(db.contents[id], p)
  {
    if ChangesBoth(db.contents[id], p) {
      var dek := TornRead(db, p, draw, id, path);
    } else {
      forall k: nat, dek | k <= |UpdatePlan(db, p, draw).writes| {
        SnapshotReads(db, p, draw, id, path, dek, k);
      }
    }
  }

  /**
   * A concrete half-done read: a public page that gets a passphrase and permission for external resources in one
   * request is for a moment private without the permission.
   */
  lemma TornReadExists(draw: Draw) returns (db: Db, p: UpdateParams, dek: seq<Byte>)
    ensures Healthy(db)
    ensures var ws, path := UpdatePlan(db, p, draw).writes, IndexFile([]).path;
            && |ws| == 2 && Hits(db, p.slug, path) != {}
            && Answers(At(db, ws, 1), p.slug, path, dek) != Answers(db, p.slug, path, dek)
            && Answers(At(db, ws, 1), p.slug, path, dek) != Answers(After(db, ws), p.slug, path, dek)
  {
    var slug: GoString := "a";
    var index := IndexFile([]);
    var row := ContentRow(slug, "owner", "", "", "", false, None, None, None);
    db := Db(map[1 := row], map[1 := FileRow(1, index.path, Bytes([]), "text/html")], 2, 2);
    p := UpdateParams(slug, "owner", None, None, None, Some(true), Upload([], "", None), "secret", "", false);
    assert SoundRow(row) && Healthy(db);
    LoadFinds(db, slug, 1);
    assert EnvelopeOf(row).None?;
    assert Decodable(db, 1, slug, None);
    assert Encrypt(db, WithMetadata(Owned(db, slug, "owner").value, p), "secret", false, draw).Ok?;
    assert 1 in Hits(db, slug, index.path);
    IndexPathIsPlain();
    hide Answers, Hits;
    dek := TornRead(db, p, draw, 1, index.path);
  }

  lemma IndexPathIsPlain()
    ensures !Paths.Contains(IndexFile([]).path, "..")
  {
    var path := "index.html";
    forall i: nat | i <= |path|
      ensures !Paths.OccursAt(path, "..", i)
    {
      assert i + 2 <= |path| ==> path[i..i + 2] == [path[i], path[i + 1]];
    }
  }
}
