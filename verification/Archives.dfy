/** What an upload stores, said in terms of the characters of its names and the members of its archive. */
module Archives {
  import opened Wrappers
  import opened ByteStrings
  import opened Sealing
  import opened Store
  import opened Requests
  import opened Invariants
  import opened Refinement
  import Paths
  import P = PlainStore

  // ----- Names ------------------------------------------------------------------------------------------------------

  /** Some element of the path after the first begins with a dot. */
  ghost predicate DotAfterSlash(name: string) {
    exists i {:trigger name[i]} :: 0 < i < |name| && name[i - 1] == '/' && name[i] == '.'
  }

  ghost predicate SomeDotted(parts: seq<string>, start: nat) {
    exists k :: start <= k < |parts| && "." <= parts[k]
  }

  lemma DottedTail(first: string, parts: seq<string>)
    ensures SomeDotted([first] + parts, 1) <==> SomeDotted(parts, 0)
    ensures parts != [] ==> (SomeDotted(parts, 0) <==> "." <= parts[0] || SomeDotted(parts, 1))
  {
    var all := [first] + parts;
    if SomeDotted(all, 1) {
      var k :| 1 <= k < |all| && "." <= all[k];
      assert parts[k - 1] == all[k];
    }
    if SomeDotted(parts, 0) {
      var k :| 0 <= k < |parts| && "." <= parts[k];
      assert all[k + 1] == parts[k];
    }
  }

  lemma {:induction false} HiddenByCharacters(name: string)
    ensures SomeDotted(Paths.Split(name), 1) <==> DotAfterSlash(name)
    ensures "." <= Paths.Split(name)[0] <==> name != "" && name[0] == '.'
  {
    if name != "" {
      var tail := Paths.Split(name[1..]);
      HiddenByCharacters(name[1..]);
      DotsShift(name);
      if name[0] == '/' {
        DottedTail("", tail);
        assert Paths.Split(name) == [""] + tail;
        assert "." <= tail[0] <==> |name| > 1 && name[1] == '.';
      } else {
        DottedTail([name[0]] + tail[0], tail[1..]);
        DottedTail(tail[0], tail[1..]);
        assert [tail[0]] + tail[1..] == tail;
        var first := [name[0]] + tail[0];
        assert Paths.Split(name) == [first] + tail[1..] && first[0] == name[0];
        assert "." <= first <==> first[0] == '.';
      }
    }
  }

  lemma DotsShift(name: string)
    requires name != ""
    ensures DotAfterSlash(name) <==> DotAfterSlash(name[1..]) || (|name| > 1 && name[0] == '/' && name[1] == '.')
  {
    var rest := name[1..];
    if DotAfterSlash(rest) {
      var i :| 0 < i < |rest| && rest[i - 1] == '/' && rest[i] == '.';
      assert name[i + 1] == '.' && name[i] == '/';
    }
    if DotAfterSlash(name) {
      var i :| 0 < i < |name| && name[i - 1] == '/' && name[i] == '.';
      assert i > 1 ==> rest[i - 1] == '.' && rest[i - 2] == '/';
    }
  }

  /** The names that are stored: the empty one, and those that are visible, relative and no resource forks. */
  ghost predicate StoredName(name: string) {
    || name == ""
    || (&& !("__MACOSX" <= name) && name[0] != '/' && name[0] != '\\' && name[0] != '.'
        && forall i {:trigger name[i]} :: 0 < i < |name| && name[i - 1] == '/' ==> name[i] != '.')
  }

  /** The name with one slash for several, and none at its end. */
  function Squeezed(name: string): string {
    if name == "" then ""
    else if name[0] == '/' && (|name| == 1 || name[1] == '/') then Squeezed(name[1..])
    else [name[0]] + Squeezed(name[1..])
  }

  lemma {:induction false} SqueezedJoins(name: string)
    ensures var parts := Paths.NonEmpty(Paths.Split(name));
            Squeezed(name) == (if name != "" && name[0] == '/' && parts != [] then "/" else "") + Paths.Join(parts)
  {
    hide Paths.Join, Paths.NonEmpty, Paths.Split, Squeezed;
    if name == "" {
      NothingJoins();
    } else {
      SqueezedJoins(name[1..]);
      if name[0] == '/' {
        SqueezedSlash(name);
      } else {
        SqueezedPush(name);
      }
    }
  }

  lemma NothingJoins()
    ensures Squeezed("") == "" && Paths.NonEmpty(Paths.Split("")) == [] && Paths.Join([]) == ""
  {
    assert Paths.NonEmpty([""]) == [];
  }

  lemma SqueezedSlash(name: string)
    requires name != "" && name[0] == '/'
    ensures Paths.NonEmpty(Paths.Split(name)) == Paths.NonEmpty(Paths.Split(name[1..]))
    ensures Squeezed(name) == (if |name| == 1 || name[1] == '/' then "" else "/") + Squeezed(name[1..])
    ensures |name| > 1 && name[1] != '/' ==> Paths.NonEmpty(Paths.Split(name[1..])) != []
    ensures |name| == 1 ==> name[1..] == "" && Paths.NonEmpty(Paths.Split(name[1..])) == []
  {
    var tail := Paths.Split(name[1..]);
    assert ([""] + tail)[1..] == tail;
    if |name| > 1 {
      Paths.SplitHead(name[1..]);
    } else {
      NothingJoins();
    }
  }

  lemma SqueezedPush(name: string)
    requires name != "" && name[0] != '/'
    requires var rest, parts := name[1..], Paths.NonEmpty(Paths.Split(name[1..]));
             Squeezed(rest) == (if rest != "" && rest[0] == '/' && parts != [] then "/" else "") + Paths.Join(parts)
    ensures Squeezed(name) == Paths.Join(Paths.NonEmpty(Paths.Split(name)))
  {
    hide Paths.Split, Paths.NonEmpty, Paths.Join, Squeezed;
    var tail := Paths.Split(name[1..]);
    RestLeads(name[1..]);
    NothingJoins();
    OrdinaryHead(name);
    FirstKept(tail);
    var others := Paths.NonEmpty(tail[1..]);
    PushedJoins(name[0], tail[0], others);
    assert "" + Paths.Join(others) == Paths.Join(others);
    assert "" + Paths.Join([tail[0]] + others) == Paths.Join([tail[0]] + others);
  }

  lemma FirstKept(parts: seq<string>)
    requires parts != []
    ensures Paths.NonEmpty(parts) ==
            if parts[0] == "" then Paths.NonEmpty(parts[1..]) else [parts[0]] + Paths.NonEmpty(parts[1..])
  {
  }

  lemma OrdinaryHead(name: string)
    requires name != "" && name[0] != '/'
    ensures Squeezed(name) == [name[0]] + Squeezed(name[1..])
    ensures var tail := Paths.Split(name[1..]);
            Paths.NonEmpty(Paths.Split(name)) == [[name[0]] + tail[0]] + Paths.NonEmpty(tail[1..])
  {
    var tail := Paths.Split(name[1..]);
    var first := [name[0]] + tail[0];
    assert ([first] + tail[1..])[1..] == tail[1..] && first != "";
  }

  lemma PushedJoins(c: char, first: string, others: seq<string>)
    ensures Paths.Join([[c] + first] + others) ==
            [c] + if first != "" then Paths.Join([first] + others)
                  else if others == [] then "" else "/" + Paths.Join(others)
  {
    hide Paths.Join;
    Paths.JoinPush(c, first, others);
    Paths.JoinLead("", others);
  }

  lemma RestLeads(rest: string)
    ensures Paths.Split(rest)[0] == "" <==> rest == "" || rest[0] == '/'
    ensures rest == "" ==> Paths.NonEmpty(Paths.Split(rest)) == []
  {
    if rest != "" {
      Paths.SplitHead(rest);
    } else {
      assert Paths.NonEmpty([""]) == [];
    }
  }

  /** Which archive names are stored, and where, by their characters. */
  lemma StoredByCharacters(name: GoString)
    ensures Paths.StoredPath(name).Some? <==> StoredName(name)
    ensures StoredName(name) ==> Paths.StoredPath(name) == Some(if name == "" then "." else Squeezed(name))
  {
    HiddenByCharacters(name);
    if name == "" {
      Paths.EmptyNameIsDot();
    } else {
      HiddenMeans(name);
      if !Paths.IsHidden(name) && !("__MACOSX" <= name) {
        Paths.StoredPathConfined(name);
        Paths.CleanOnlyCollapses(name);
        SqueezedJoins(name);
      }
    }
  }

  lemma HiddenMeans(name: string)
    requires name != ""
    ensures Paths.IsHidden(name) <==> name[0] == '.' || DotAfterSlash(name)
  {
    HiddenByCharacters(name);
    var parts := Paths.Split(name);
    if Paths.IsHidden(name) {
      var part :| part in parts && "." <= part;
      var k :| 0 <= k < |parts| && parts[k] == part;
      assert k > 0 ==> SomeDotted(parts, 1);
    }
    if SomeDotted(parts, 1) {
      var k :| 1 <= k < |parts| && "." <= parts[k];
      assert parts[k] in parts;
    }
    assert parts[0] in parts;
  }

  // ----- Members ----------------------------------------------------------------------------------------------------

  /** The member is a file with a name that is stored. */
  ghost predicate Wanted(item: ZipItem) {
    !item.isDir && StoredName(item.name)
  }

  /** The file is the member's: its path, its bytes and its content type. */
  predicate FileOf(file: NewFile, item: ZipItem) {
    && file.path == (if item.name == "" then "." else Squeezed(item.name))
    && item.content == Some(file.data) && file.contentType == item.contentType
  }

  /**
   * The files are those of the members at the positions `from`, in order, which are all the wanted ones before `cut`.
   * The archive is cut off at the first wanted member that cannot be read, if there is one.
   */
  ghost predicate Picks(items: seq<ZipItem>, files: seq<NewFile>, from: seq<nat>, cut: nat) {
    && cut <= |items| && (cut < |items| ==> Wanted(items[cut]) && items[cut].content.None?)
    && Covers(items, from, cut) && Ascending(from)
    && |from| == |files| && forall j :: 0 <= j < |from| ==> from[j] < cut && TakenFrom(items, files[j], from[j])
  }

  ghost predicate Covers(items: seq<ZipItem>, from: seq<nat>, cut: nat)
    requires cut <= |items|
  {
    forall i :: 0 <= i < cut && Wanted(items[i]) ==> items[i].content.Some? && i in from
  }

  predicate Ascending(from: seq<nat>) {
    forall j, k :: 0 <= j < k < |from| ==> from[j] < from[k]
  }

  ghost predicate TakenFrom(items: seq<ZipItem>, file: NewFile, i: nat) {
    i < |items| && Wanted(items[i]) && FileOf(file, items[i])
  }

  lemma {:induction false} ArchivePicks(items: seq<ZipItem>) returns (from: seq<nat>, cut: nat)
    ensures var unpacked := Unpack(Members(items));
            Picks(items, unpacked.files, from, cut) && (unpacked.complete <==> cut == |items|)
  {
    from, cut := [], 0;
    if items == [] {
      NothingPicked(items);
    } else {
      ClassifyMember(items[0]);
      UnpackHead(items);
      hide Picks, Wanted, TakenFrom, Unpack, Members, Classify;
      if Classify(items[0]).Unreadable? {
        NothingPicked(items);
      } else {
        var files := Unpack(Members(items[1..])).files;
        var later, end := ArchivePicks(items[1..]);
        cut := end + 1;
        if Wanted(items[0]) {
          from := [0] + Shifted(later);
          TakenFirst(items, Classify(items[0]).file);
          AfterStored(items, Classify(items[0]).file, files, later, end);
        } else {
          from := Shifted(later);
          AfterSkipped(items, files, later, end);
        }
      }
    }
  }

  lemma NothingPicked(items: seq<ZipItem>)
    requires items != [] ==> Wanted(items[0]) && items[0].content.None?
    ensures Picks(items, [], [], 0)
  {
  }

  lemma TakenFirst(items: seq<ZipItem>, file: NewFile)
    requires items != [] && Wanted(items[0]) && FileOf(file, items[0])
    ensures TakenFrom(items, file, 0)
  {
  }

  lemma UnpackHead(items: seq<ZipItem>)
    requires items != []
    ensures var rest := Unpack(Members(items[1..]));
            Unpack(Members(items)) ==
            match Classify(items[0])
            case Skipped => rest
            case Unreadable => Unpacked([], false)
            case Stored(file) => Unpacked([file] + rest.files, rest.complete)
  {
    assert Members(items)[1..] == Members(items[1..]);
  }

  lemma ClassifyMember(item: ZipItem)
    ensures match Classify(item)
            case Skipped => !Wanted(item)
            case Unreadable => Wanted(item) && item.content.None?
            case Stored(file) => Wanted(item) && FileOf(file, item) && item.content.Some?
  {
    StoredByCharacters(item.name);
    hide StoredName, Paths.StoredPath;
  }

  function Shifted(later: seq<nat>): (from: seq<nat>)
    ensures |from| == |later| && forall j :: 0 <= j < |later| ==> from[j] == later[j] + 1
  {
    seq(|later|, j requires 0 <= j < |later| => later[j] + 1)
  }

  lemma AfterSkipped(items: seq<ZipItem>, files: seq<NewFile>, later: seq<nat>, end: nat)
    requires items != [] && Picks(items[1..], files, later, end) && !Wanted(items[0])
    ensures Picks(items, files, Shifted(later), end + 1)
  {
    ShiftedCovers(items, later, end, []);
    assert [] + Shifted(later) == Shifted(later);
    hide FileOf, Wanted, Shifted, Covers;
  }

  lemma AfterStored(items: seq<ZipItem>, file: NewFile, files: seq<NewFile>, later: seq<nat>, end: nat)
    requires items != [] && Picks(items[1..], files, later, end) && TakenFrom(items, file, 0)
    requires items[0].content.Some?
    ensures Picks(items, [file] + files, [0] + Shifted(later), end + 1)
  {
    hide FileOf, Wanted, Covers, Ascending, TakenFrom;
    ShiftedCovers(items, later, end, [0]);
    ShiftedAscends(later);
    var from, all := [0] + Shifted(later), [file] + files;
    forall j | 0 <= j < |from|
      ensures from[j] < end + 1 && TakenFrom(items, all[j], from[j])
    {
      if j > 0 {
        ShiftedTakes(items, all[j], later[j - 1]);
      }
    }
    CutStays(items, end);
  }

  lemma ShiftedAscends(later: seq<nat>)
    requires Ascending(later)
    ensures Ascending([0] + Shifted(later))
  {
  }

  lemma ShiftedTakes(items: seq<ZipItem>, file: NewFile, i: nat)
    requires items != [] && TakenFrom(items[1..], file, i)
    ensures TakenFrom(items, file, i + 1)
  {
  }

  lemma CutStays(items: seq<ZipItem>, end: nat)
    requires items != [] && end < |items|
    ensures end + 1 < |items| ==> items[end + 1] == items[1..][end]
  {
  }

  lemma ShiftedCovers(items: seq<ZipItem>, later: seq<nat>, end: nat, head: seq<nat>)
    requires items != [] && end < |items| && Covers(items[1..], later, end)
    requires Wanted(items[0]) ==> items[0].content.Some? && head == [0]
    ensures Covers(items, head + Shifted(later), end + 1)
  {
    hide Wanted, Shifted;
    forall i | 0 <= i < end + 1 && Wanted(items[i])
      ensures items[i].content.Some? && i in head + Shifted(later)
    {
      if i > 0 {
        ShiftedHas(items, later, i);
      } else {
        assert head[0] == 0;
      }
    }
  }

  lemma ShiftedHas(items: seq<ZipItem>, later: seq<nat>, i: nat)
    requires 0 < i < |items|
    ensures items[i] == items[1..][i - 1] && (i - 1 in later ==> i in Shifted(later))
  {
    if i - 1 in later {
      var j :| 0 <= j < |later| && later[j] == i - 1;
      assert Shifted(later)[j] == i;
    }
  }

  // ----- Uploads ----------------------------------------------------------------------------------------------------

  /** The name ends in ".zip", whatever the case of its letters. */
  predicate ZipName(name: string) {
    && |name| >= 4 && name[|name| - 4] == '.' && name[|name| - 3] in "zZ" && name[|name| - 2] in "iI\U{0130}"
    && name[|name| - 1] in "pP"
  }

  lemma ZipByCharacters(name: string)
    ensures IsZip(name) <==> ZipName(name)
  {
    if |name| >= 4 {
      var low, n := Lower(name), |name|;
      assert low[n - 4..] == [low[n - 4], low[n - 3], low[n - 2], low[n - 1]];
      assert ".zip" == ['.', 'z', 'i', 'p'];
    }
  }

  /** The files an upload stores: its one page, or the wanted members of its archive up to the first unreadable one. */
  ghost predicate Uploads(u: Upload, files: seq<NewFile>, complete: bool) {
    if !ZipName(u.fileName) then complete && files == [NewFile("index.html", "text/html", u.data)]
    else if u.archive.None? then !complete && files == []
    else exists from, cut :: Picks(u.archive.value, files, from, cut) && (complete <==> cut == |u.archive.value|)
  }

  lemma UploadsAreExact(u: Upload)
    ensures Uploads(u, UploadedFiles(u).files, UploadedFiles(u).complete)
  {
    ZipByCharacters(u.fileName);
    if IsZip(u.fileName) && u.archive.Some? {
      var from, cut := ArchivePicks(u.archive.value);
    }
  }

  /** The stored files, by number. */
  ghost predicate Lists(files: map<nat, P.File>, first: nat, stored: seq<NewFile>) {
    && (forall f :: f in files <==> first <= f < first + |stored|)
    && forall j {:trigger stored[j]} :: 0 <= j < |stored| ==>
         files[first + j] == P.File(stored[j].path, stored[j].contentType, stored[j].data)
  }

  lemma {:induction false} NumberedLists(files: seq<NewFile>, first: nat, k: nat)
    requires k <= |files|
    ensures Lists(P.Numbered(files, first, k), first, files[..k])
  {
    if k > 0 {
      NumberedLists(files, first, k - 1);
    }
  }

  lemma UnpackedLists(u: Upload, first: nat)
    ensures Lists(P.Unpacked(u, first), first, UploadedFiles(u).files)
  {
    var files := UploadedFiles(u).files;
    NumberedLists(files, first, |files|);
    assert files[..|files|] == files;
  }

  /** A creation that is accepted gives the entry exactly the files of its upload; a broken one leaves no entry. */
  lemma CreationStoresUpload(db: Db, p: CreateParams, draw: Draw) returns (stored: seq<NewFile>, complete: bool)
    requires WellFormed(db) && CreatePlan(db, p, draw).writes != []
    ensures Uploads(p.upload, stored, complete)
    ensures var plan := CreatePlan(db, p, draw);
            var s' := Plain(After(db, plan.writes));
            if complete then
              && plan.verdict.Ok? && db.nextContent in s'.entries
              && Lists(s'.entries[db.nextContent].files, db.nextFile, stored)
            else plan.verdict == Err(BadArchive) && db.nextContent !in s'.entries
  {
    UploadsAreExact(p.upload);
    UnpackedLists(p.upload, db.nextFile);
    stored, complete := UploadedFiles(p.upload).files, UploadedFiles(p.upload).complete;
    hide Uploads, UploadedFiles, Lists, P.Unpacked;
    CreateRefines(db, p, draw);
    NamedIsIds(db, p.slug);
  }

  /** An update that replaces the files leaves the entry exactly the files of its upload, also when it is broken off. */
  lemma UpdateStoresUpload(db: Db, p: UpdateParams, draw: Draw, id: nat) returns (stored: seq<NewFile>, complete: bool)
    requires WellFormed(db) && SlugConsistent(db, p.slug) && id in Ids(db, p.slug) && p.Replaces()
    requires UpdatePlan(db, p, draw).writes != []
    ensures Uploads(p.upload, stored, complete)
    ensures var plan := UpdatePlan(db, p, draw);
            var s' := Plain(After(db, plan.writes));
            && id in s'.entries && Lists(s'.entries[id].files, db.nextFile, stored)
            && if complete then plan.verdict.Ok? else plan.verdict == Err(BadArchive)
  {
    UploadsAreExact(p.upload);
    UnpackedLists(p.upload, db.nextFile);
    stored, complete := UploadedFiles(p.upload).files, UploadedFiles(p.upload).complete;
    hide Uploads, UploadedFiles, Lists, P.Unpacked, P.NextPassphrase, UpdatePlan;
    AcceptedVerdict(db, p, draw);
    UpdateRefines(db, p, draw);
    OwnedAgrees(db, p.slug, p.owner);
  }

  /** An update that writes anything answers with the entry, unless its archive is broken. */
  lemma AcceptedVerdict(db: Db, p: UpdateParams, draw: Draw)
    requires UpdatePlan(db, p, draw).writes != [] && p.Replaces()
    ensures Owned(db, p.slug, p.owner).Ok?
    ensures if UploadedFiles(p.upload).complete then UpdatePlan(db, p, draw).verdict.Ok?
            else UpdatePlan(db, p, draw).verdict == Err(BadArchive)
  {
    hide EncryptionChange, UploadedFiles, ChangeWrites;
  }
}
