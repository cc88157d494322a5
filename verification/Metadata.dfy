/** What requests make of an entry's title, source address, creator and flag, said in terms of the characters sent. */
module Metadata {
  import opened Wrappers
  import opened Sealing
  import opened Store
  import opened Requests
  import opened Invariants
  import KdfParams

  // ----- Blanks ---------------------------------------------------------------------------------------------------

  /** The characters with the Unicode property White_Space. */
  const BLANKS: string :=
    "\t\n\U{000B}\U{000C}\r \U{0085}\U{00A0}\U{1680}\U{2000}\U{2001}\U{2002}\U{2003}\U{2004}\U{2005}" +
    "\U{2006}\U{2007}\U{2008}\U{2009}\U{200A}\U{2028}\U{2029}\U{202F}\U{205F}\U{3000}"

  predicate Blank(c: char) {
    c in BLANKS
  }

  predicate AllBlank(s: string) {
    forall i :: 0 <= i < |s| ==> Blank(s[i])
  }

  lemma SpacesAreBlanks(c: char)
    ensures KdfParams.IsSpace(c) <==> Blank(c)
  {
    if c in BLANKS {
      var i :| 0 <= i < |BLANKS| && BLANKS[i] == c;
    }
  }

  /** t is s without the blanks around it. */
  ghost predicate TrimOf(s: string, t: string) {
    exists a, b :: Surrounded(s, a, t, b)
  }

  ghost predicate Surrounded(s: string, a: string, t: string, b: string) {
    && s == a + t + b && AllBlank(a) && AllBlank(b)
    && (t != "" ==> !Blank(t[0]) && !Blank(t[|t| - 1]))
  }

  lemma {:induction false} LeftTrimmed(s: string) returns (a: string)
    ensures s == a + TrimLeft(s) && AllBlank(a)
    ensures TrimLeft(s) != "" ==> !Blank(TrimLeft(s)[0])
  {
    hide Blank, KdfParams.IsSpace;
    a := "";
    if s != "" {
      SpacesAreBlanks(s[0]);
      if KdfParams.IsSpace(s[0]) {
        var rest := LeftTrimmed(s[1..]);
        a := [s[0]] + rest;
        assert s == [s[0]] + s[1..];
      }
    }
  }

  lemma {:induction false} TrimSpaceTrims(s: string)
    ensures TrimOf(s, TrimSpace(s))
    decreases |s|
  {
    hide Blank, KdfParams.IsSpace;
    if s != "" && KdfParams.IsSpace(s[|s| - 1]) {
      SpacesAreBlanks(s[|s| - 1]);
      TrimSpaceTrims(s[..|s| - 1]);
      var a, b :| Surrounded(s[..|s| - 1], a, TrimSpace(s), b);
      assert s == s[..|s| - 1] + [s[|s| - 1]] == a + TrimSpace(s) + (b + [s[|s| - 1]]);
      assert Surrounded(s, a, TrimSpace(s), b + [s[|s| - 1]]);
    } else {
      var a := LeftTrimmed(s);
      if s != "" {
        SpacesAreBlanks(s[|s| - 1]);
      }
      assert Surrounded(s, a, TrimSpace(s), "");
    }
  }

  /** Only one text is what is left without the blanks. */
  lemma TrimIsUnique(s: string, t: string, t': string)
    requires TrimOf(s, t) && TrimOf(s, t')
    ensures t == t'
  {
    hide Blank;
    var a, b :| Surrounded(s, a, t, b);
    var a', b' :| Surrounded(s, a', t', b');
    if t != "" {
      Reaches(s, a, t, b, a', t', b');
    }
    if t' != "" {
      Reaches(s, a', t', b', a, t, b);
    }
    assert t == s[|a|..|a| + |t|] && t' == s[|a'|..|a'| + |t'|];
  }

  /** What has no blank at its ends lies within what is left by any other trim. */
  lemma Reaches(s: string, a: string, t: string, b: string, a': string, t': string, b': string)
    requires Surrounded(s, a, t, b) && Surrounded(s, a', t', b') && t != ""
    ensures t' != "" && |a'| <= |a| && |a| + |t| <= |a'| + |t'|
  {
    hide Blank;
    assert s[|a|] == t[0] && s[|a| + |t| - 1] == t[|t| - 1];
    assert forall i {:trigger s[i]} :: 0 <= i < |a'| ==> s[i] == a'[i];
    assert forall i {:trigger s[i]} :: |a'| + |t'| <= i < |s| ==> s[i] == b'[i - |a'| - |t'|];
  }

  // ----- Creations ------------------------------------------------------------------------------------------------

  /** The text as it was sent, unless it is blank throughout. */
  function Given(text: string, fallback: string): string {
    if AllBlank(text) then fallback else text
  }

  lemma GivenOrElse(text: string, fallback: string)
    ensures OrElse(text, fallback) == Given(text, fallback)
  {
    hide Blank;
    TrimSpaceTrims(text);
    var a, b :| Surrounded(text, a, TrimSpace(text), b);
    assert TrimSpace(text) != "" ==> text[|a|] == TrimSpace(text)[0];
  }

  /**
   * The row and the answer of a creation: the title and the creator verbatim unless they are blank, then the slug and
   * the owner; the source address without the blanks around it.
   */
  lemma CreationMetadata(db: Db, p: CreateParams, draw: Draw)
    requires CreatePlan(db, p, draw).writes != []
    ensures CreatePlan(db, p, draw).writes[0].InsertContent?
    ensures var row := CreatePlan(db, p, draw).writes[0].row;
            && row.slug == p.slug && row.owner == p.owner && row.allowExternal == p.allowExternal
            && row.title == Given(p.title, p.slug) && row.creator == Given(p.creator, p.owner)
            && TrimOf(p.sourceUrl, row.sourceUrl)
    ensures CreatePlan(db, p, draw).verdict.Ok? ==>
              var c, row := CreatePlan(db, p, draw).verdict.value, CreatePlan(db, p, draw).writes[0].row;
              && c.slug == row.slug && c.owner == row.owner && c.title == row.title && c.creator == row.creator
              && c.sourceUrl == row.sourceUrl && c.allowExternal == row.allowExternal
  {
    GivenOrElse(p.title, p.slug);
    GivenOrElse(p.creator, p.owner);
    TrimSpaceTrims(p.sourceUrl);
    hide OrElse, TrimSpace, TrimOf, Given, UploadedFiles;
  }

  // ----- Updates ---------------------------------------------------------------------------------------------------

  /** What a change that may be absent makes of a text. */
  ghost predicate Edited(change: Option<string>, before: string, after: string) {
    match change
    case None => after == before
    case Some(s) => TrimOf(s, after)
  }

  ghost predicate EditedRow(p: UpdateParams, row: ContentRow, row': ContentRow) {
    && row'.slug == row.slug && row'.owner == row.owner
    && Edited(p.title, row.title, row'.title) && Edited(p.sourceUrl, row.sourceUrl, row'.sourceUrl)
    && Edited(p.creator, row.creator, row'.creator)
    && row'.allowExternal == if p.allowExternal.Some? then p.allowExternal.value else row.allowExternal
  }

  lemma TrimmedEdits(change: Option<string>, before: string)
    ensures Edited(change, before, Trimmed(change, before))
  {
    if change.Some? {
      TrimSpaceTrims(change.value);
    }
  }

  /** The metadata of the row, apart from the encryption columns. */
  predicate Describes(c: Content, row: ContentRow) {
    && row.slug == c.slug && row.owner == c.owner && row.title == c.title && row.sourceUrl == c.sourceUrl
    && row.creator == c.creator && row.allowExternal == c.allowExternal
  }

  /** Nothing after the metadata statement touches what it wrote. */
  lemma {:induction false} MetadataStands(db: Db, ws: seq<Write>, id: nat, c: Content, start: nat, k: nat)
    requires start < k <= |ws| && ws[start] == MetadataWrite(c) && c.id == id
    requires id in At(db, ws, start).contents
    requires At(db, ws, start).contents[id].slug == c.slug && At(db, ws, start).contents[id].owner == c.owner
    requires forall i :: start < i < |ws| ==> ws[i].RemoveFiles? || ws[i].InsertFile?
    ensures id in At(db, ws, k).contents && Describes(c, At(db, ws, k).contents[id])
  {
    if k > start + 1 {
      MetadataStands(db, ws, id, c, start, k - 1);
    }
  }

  lemma TailWrites(content: Content, p: UpdateParams, key: Option<Dek>, first: nat, draw: Draw)
    ensures var ws := ChangeWrites(content, p, key, first, draw);
            && |ws| > 0 && ws[0] == MetadataWrite(content)
            && forall i :: 0 < i < |ws| ==> ws[i].RemoveFiles? || ws[i].InsertFile?
  {
    hide UploadedFiles;
  }

  /**
   * A finished update leaves, and answers with, every text as it was sent but for the blanks around it, or as it was.
   */
  lemma UpdateMetadata(db: Db, p: UpdateParams, draw: Draw, id: nat)
    requires WellFormed(db) && id in Ids(db, p.slug) && UpdatePlan(db, p, draw).writes != []
    ensures var plan := UpdatePlan(db, p, draw);
            var db' := After(db, plan.writes);
            && id in db'.contents && EditedRow(p, db.contents[id], db'.contents[id])
            && (plan.verdict.Ok? ==> plan.verdict.value.id == id && Describes(plan.verdict.value, db'.contents[id]))
  {
    hide EncryptionChange, ChangeWrites, UploadedFiles, Trimmed, EnvelopeOf, Edited, SoundRow;
    LoadFinds(db, p.slug, id);
    var row := db.contents[id];
    var found := Owned(db, p.slug, p.owner).value;
    var content := WithMetadata(found, p);
    SwapKeepsIdentity(db, content, p, draw);
    var change := EncryptionChange(db, content, p, draw).value;
    var c := content.(encryption := change.encryption);
    var tail := ChangeWrites(c, p, change.key, db.nextFile, draw);
    TailWrites(c, p, change.key, db.nextFile, draw);
    AtConcat(db, change.writes, tail, 0);
    var ws, start := change.writes + tail, |change.writes|;
    assert ws[start] == tail[0] && forall i :: start < i < |ws| ==> ws[i] == tail[i - start];
    assert At(db, ws, start) == After(db, change.writes);
    MetadataStands(db, ws, id, c, start, |ws|);
    TrimmedEdits(p.title, row.title);
    TrimmedEdits(p.sourceUrl, row.sourceUrl);
    TrimmedEdits(p.creator, row.creator);
  }
}
