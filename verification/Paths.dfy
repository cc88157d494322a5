/** The two path confiners: the redirect target after an unlock, and the stored path of an archive member. */
module Paths {
  import opened Wrappers
  import opened ByteStrings

  // ----- Slugs ------------------------------------------------------------------------------------

  predicate SlugChar(c: char) {
    'a' <= c <= 'z' || '0' <= c <= '9'
  }

  predicate ValidSlug(slug: string) {
    && slug != ""
    && SlugChar(slug[0]) && SlugChar(slug[|slug| - 1])
    && forall i :: 0 <= i < |slug| ==> SlugChar(slug[i]) || slug[i] == '-'
  }

  // ----- Searching strings --------------------------------------------------------------------------

  predicate OccursAt(s: string, sub: string, i: nat) {
    i + |sub| <= |s| && s[i..i + |sub|] == sub
  }

  predicate Contains(s: string, sub: string) {
    exists i: nat | i <= |s| :: OccursAt(s, sub, i)
  }

  predicate ContainsAny(s: string, chars: string) {
    exists i | 0 <= i < |s| :: s[i] in chars
  }

  lemma ContainsSuffix(s: string, k: nat, sub: string)
    requires k <= |s|
    requires Contains(s[k..], sub)
    ensures Contains(s, sub)
  {
    var i: nat :| i <= |s[k..]| && OccursAt(s[k..], sub, i);
    assert s[k..][i..i + |sub|] == s[k + i..k + i + |sub|];
    assert OccursAt(s, sub, k + i);
  }

  // ----- Redirects after an unlock -----------------------------------------------------------------

  function ContentPath(slug: string): string {
    "/s/" + slug
  }

  predicate AcceptsNext(slug: string, next: string) {
    && (next == ContentPath(slug) || ContentPath(slug) + "/" <= next)
    && !ContainsAny(next, "\\\r\n") && !Contains(next, "//") && !Contains(next, "..")
  }

  function SafeNext(slug: string, next: string): string {
    if AcceptsNext(slug, next) then next else ContentPath(slug)
  }

  /** The path component of a relative reference: what stands before its query or fragment. */
  function PathComponent(target: string): string {
    if target == "" || target[0] == '?' || target[0] == '#' then ""
    else [target[0]] + PathComponent(target[1..])
  }

  /** Up to, not including, the next slash after the first character. */
  function FirstSegment(input: string): (segment: string)
    requires input != ""
    ensures segment <= input && segment != ""
  {
    [input[0]] + UpToSlash(input[1..])
  }

  function UpToSlash(s: string): (head: string)
    ensures head <= s && '/' !in head
    ensures |head| < |s| ==> s[|head|] == '/'
  {
    if s == "" || s[0] == '/' then "" else [s[0]] + UpToSlash(s[1..])
  }

  /** Drops the last segment of the output buffer together with its slash. */
  function DropLastSegment(output: string): string {
    if output == "" then ""
    else if output[|output| - 1] == '/' then output[..|output| - 1]
    else DropLastSegment(output[..|output| - 1])
  }

  /** "Remove dot segments", section 5.2.4 of RFC 3986, with its input and output buffers. */
  function RemoveDotSegments(input: string, output: string): string
    decreases |input|
  {
    if input == "" then output
    else if "../" <= input then RemoveDotSegments(input[3..], output)
    else if "./" <= input then RemoveDotSegments(input[2..], output)
    else if "/./" <= input then RemoveDotSegments(input[2..], output)
    else if input == "/." then RemoveDotSegments("/", output)
    else if "/../" <= input then RemoveDotSegments(input[3..], DropLastSegment(output))
    else if input == "/.." then RemoveDotSegments("/", DropLastSegment(output))
    else if input == "." || input == ".." then output
    else RemoveDotSegments(input[|FirstSegment(input)|..], output + FirstSegment(input))
  }

  /**
   * The path of a redirect target as section 5.2.4 of RFC 3986 resolves it. Percent-encoded characters stay as they
   * are there; a client that also reads "%2e%2e" as a parent segment goes beyond that section.
   */
  function Destination(target: string): string {
    RemoveDotSegments(PathComponent(target), "")
  }

  predicate Under(slug: string, path: string) {
    path == ContentPath(slug) || ContentPath(slug) + "/" <= path
  }

  predicate Rooted(s: string) {
    s == "" || s[0] == '/'
  }

  /** An input that starts with a slash and has no ".." loses a "." segment or moves a segment to the output. */
  lemma RootedStep(input: string, output: string)
    requires input != "" && input[0] == '/' && !Contains(input, "..")
    ensures RemoveDotSegments(input, output) ==
            if "/./" <= input then RemoveDotSegments(input[2..], output)
            else if input == "/." then RemoveDotSegments("/", output)
            else RemoveDotSegments(input[|FirstSegment(input)|..], output + FirstSegment(input))
  {
    assert OccursAt(input, "..", 1) <==> |input| >= 3 && input[1..3] == "..";
  }

  lemma NothingMoves(output: string)
    ensures RemoveDotSegments("", output) == output
  {
  }

  /** Without "..", a rooted input only ever adds whole segments to the output. */
  lemma {:induction false} RootedInputExtends(input: string, output: string) returns (tail: string)
    requires Rooted(input) && !Contains(input, "..")
    ensures RemoveDotSegments(input, output) == output + tail && Rooted(tail)
    decreases |input|
  {
    hide RemoveDotSegments;
    if input == "" {
      NothingMoves(output);
      tail := "";
      return;
    }
    RootedStep(input, output);
    if "/./" <= input {
      NoDotsInSuffix(input, 2);
      tail := RootedInputExtends(input[2..], output);
    } else if input == "/." {
      NoDotsInSlash();
      tail := RootedInputExtends("/", output);
    } else {
      var segment := FirstSegment(input);
      NoDotsInSuffix(input, |segment|);
      var rest := RootedInputExtends(input[|segment|..], output + segment);
      tail := segment + rest;
      assert output + tail == output + segment + rest;
    }
  }

  lemma NoDotsInSlash()
    ensures !Contains("/", "..")
  {
  }

  lemma NoDotsInSuffix(s: string, k: nat)
    requires k <= |s| && !Contains(s, "..")
    ensures !Contains(s[k..], "..")
  {
    if Contains(s[k..], "..") {
      ContainsSuffix(s, k, "..");
    }
  }

  lemma UpToSlashWhole(head: string, rest: string)
    requires '/' !in head && Rooted(rest)
    ensures UpToSlash(head + rest) == head
  {
    if head == "" {
      assert head + rest == rest;
    } else {
      assert (head + rest)[1..] == head[1..] + rest;
      UpToSlashWhole(head[1..], rest);
    }
  }

  /** One ordinary segment moves to the output unchanged. */
  lemma OrdinarySegmentMoves(name: string, rest: string, output: string)
    requires name != "" && '/' !in name && name[0] != '.' && Rooted(rest)
    ensures RemoveDotSegments("/" + name + rest, output) == RemoveDotSegments(rest, output + ("/" + name))
  {
    var input := "/" + name + rest;
    assert input[1..] == name + rest && input[1] == name[0];
    UpToSlashWhole(name, rest);
    assert FirstSegment(input) == "/" + name;
    assert input[|FirstSegment(input)|..] == rest;
  }

  lemma {:induction false} PathComponentSplits(s: string, rest: string)
    requires '?' !in s && '#' !in s
    ensures PathComponent(s + rest) == s + PathComponent(rest)
  {
    if s == "" {
      assert s + rest == rest;
    } else {
      assert (s + rest)[1..] == s[1..] + rest;
      PathComponentSplits(s[1..], rest);
    }
  }

  lemma {:induction false} PathComponentIsPrefix(target: string)
    ensures PathComponent(target) <= target
  {
    if target == "" {
    } else {
      PathComponentIsPrefix(target[1..]);
    }
  }

  lemma ContainsPrefix(s: string, k: nat, sub: string)
    requires k <= |s| && Contains(s[..k], sub)
    ensures Contains(s, sub)
  {
    var i: nat :| i <= k && OccursAt(s[..k], sub, i);
    assert s[..k][i..i + |sub|] == s[i..i + |sub|];
    assert OccursAt(s, sub, i);
  }

  lemma ContentPathMoves(slug: string, rest: string)
    requires ValidSlug(slug) && Rooted(rest)
    ensures RemoveDotSegments(ContentPath(slug) + rest, "") == RemoveDotSegments(rest, ContentPath(slug))
  {
    hide RemoveDotSegments;
    assert slug[0] != '.' && '/' !in slug;
    var inner := "/" + slug + rest;
    assert ContentPath(slug) + rest == "/" + "s" + inner;
    OrdinarySegmentMoves("s", inner, "");
    OrdinarySegmentMoves(slug, rest, "/s");
    assert "" + ("/" + "s") == "/s";
    assert "/s" + ("/" + slug) == ContentPath(slug);
  }

  lemma ContentPathIsStable(slug: string, rest: string)
    requires ValidSlug(slug) && Rooted(rest) && !Contains(rest, "..")
    ensures Under(slug, RemoveDotSegments(ContentPath(slug) + rest, ""))
  {
    hide RemoveDotSegments;
    var base := ContentPath(slug);
    ContentPathMoves(slug, rest);
    var tail := RootedInputExtends(rest, ContentPath(slug));
    if tail != "" {
      assert base + tail == base + "/" + tail[1..];
    }
  }

  lemma AcceptedStaysUnder(slug: string, next: string)
    requires ValidSlug(slug) && AcceptsNext(slug, next)
    ensures Under(slug, Destination(next))
  {
    var base := ContentPath(slug);
    var rest := next[|base|..];
    assert next == base + rest && Rooted(rest);
    assert '?' !in base && '#' !in base;
    PathComponentSplits(base, rest);
    PathComponentIsPrefix(rest);
    var path := PathComponent(rest);
    NoDotsInSuffix(next, |base|);
    assert path == rest[..|path|];
    if Contains(path, "..") {
      ContainsPrefix(rest, |path|, "..");
    }
    ContentPathIsStable(slug, path);
  }

  lemma DoubleFree(s: string, c: char)
    requires forall i :: 0 <= i < |s| - 1 ==> s[i] == c ==> s[i + 1] != c
    ensures !Contains(s, [c, c])
  {
    forall i: nat | i + 2 <= |s|
      ensures !OccursAt(s, [c, c], i)
    {
      assert s[i..i + 2] == [s[i], s[i + 1]];
    }
  }

  lemma BasePathIsClean(slug: string)
    requires ValidSlug(slug)
    ensures AcceptsNext(slug, ContentPath(slug))
  {
    var base := ContentPath(slug);
    assert forall i {:trigger base[i]} :: 3 <= i < |base| ==> base[i] == slug[i - 3];
    DoubleFree(base, '/');
    DoubleFree(base, '.');
  }

  /** The redirect target is a fixed point, and without its dot segments it is still under the content's path. */
  lemma SafeNextConfines(slug: string, next: string)
    requires ValidSlug(slug)
    ensures SafeNext(slug, SafeNext(slug, next)) == SafeNext(slug, next)
    ensures Under(slug, Destination(SafeNext(slug, next)))
    ensures AcceptsNext(slug, SafeNext(slug, next))
    ensures SafeNext(slug, next) == next <==> AcceptsNext(slug, next)
  {
    BasePathIsClean(slug);
    AcceptedStaysUnder(slug, SafeNext(slug, next));
  }

  /** Dot segments in front of a rooted rest: one is dropped, two take the last segment of the output with them. */
  lemma DotSegments(rest: string, output: string)
    requires rest != "" && rest[0] == '/'
    ensures RemoveDotSegments("/." + rest, output) == RemoveDotSegments(rest, output)
    ensures RemoveDotSegments("/.." + rest, output) == RemoveDotSegments(rest, DropLastSegment(output))
  {
    var one, two := "/." + rest, "/.." + rest;
    assert one[2..] == rest && two[3..] == rest;
    assert one[0] == '/' && one[1] == '.' && one[2] == '/' && one[..3] == "/./";
    assert two[0] == '/' && two[1] == '.' && two[2] == '.' && two[3] == '/' && two[..4] == "/../";
  }

  /** The first example of section 5.2.4 of RFC 3986. */
  lemma RfcExample()
    ensures RemoveDotSegments("/a/b/c/./../../g", "") == "/a/g"
  {
    hide RemoveDotSegments;
    OrdinarySegmentMoves("a", "/b/c/./../../g", "");
    OrdinarySegmentMoves("b", "/c/./../../g", "/a");
    OrdinarySegmentMoves("c", "/./../../g", "/a/b");
    DotSegments("/../../g", "/a/b/c");
    DotSegments("/../g", "/a/b/c");
    DotSegments("/g", "/a/b");
    OrdinarySegmentMoves("g", "", "/a");
    NothingMoves("/a/g");
    DroppedSegments();
    assert "/" + "a" + "/b/c/./../../g" == "/a/b/c/./../../g" && "" + ("/" + "a") == "/a";
    assert "/" + "b" + "/c/./../../g" == "/b/c/./../../g" && "/a" + ("/" + "b") == "/a/b";
    assert "/" + "c" + "/./../../g" == "/c/./../../g" && "/a/b" + ("/" + "c") == "/a/b/c";
    assert "/." + "/../../g" == "/./../../g" && "/.." + "/../g" == "/../../g" && "/.." + "/g" == "/../g";
    assert "/" + "g" + "" == "/g" && "/a" + ("/" + "g") == "/a/g";
  }

  lemma DroppedSegments()
    ensures DropLastSegment("/a/b/c") == "/a/b" && DropLastSegment("/a/b") == "/a"
  {
    assert "/a/b/c"[..5] == "/a/b/" && "/a/b/"[..4] == "/a/b";
    assert DropLastSegment("/a/b/") == "/a/b";
    assert "/a/b"[..3] == "/a/" && "/a/"[..2] == "/a";
    assert DropLastSegment("/a/") == "/a";
  }

  // ----- The same by characters -----------------------------------------------------------------------

  /** Some character stands next to itself. */
  ghost predicate Doubled(s: string, c: char) {
    exists i {:trigger s[i]} :: 0 < i < |s| && s[i - 1] == c && s[i] == c
  }

  lemma PairOccurs(s: string, c: char)
    ensures Contains(s, [c, c]) <==> Doubled(s, c)
  {
    if Contains(s, [c, c]) {
      var i: nat :| i <= |s| && OccursAt(s, [c, c], i);
      assert s[i..i + 2][0] == s[i] && s[i..i + 2][1] == s[i + 1];
    }
    if Doubled(s, c) {
      var i :| 0 < i < |s| && s[i - 1] == c && s[i] == c;
      assert s[i - 1..i + 1] == [c, c];
      assert OccursAt(s, [c, c], i - 1);
    }
  }

  /** A slug is made of small letters, digits and, between two of these somewhere, hyphens. */
  lemma SlugByCharacters(slug: string)
    ensures ValidSlug(slug) <==>
            slug != "" && forall i :: 0 <= i < |slug| ==>
              || 'a' <= slug[i] <= 'z' || '0' <= slug[i] <= '9'
              || (slug[i] == '-' && 0 < i < |slug| - 1)
  {
  }

  /**
   * The target that was asked for, if it is the content's path or continues it after a slash and has nothing odd in it.
   */
  lemma SafeNextByCharacters(slug: string, next: string)
    ensures var base := "/s/" + slug;
            SafeNext(slug, next) ==
            if (next == base || (|next| > |base| && next[..|base|] == base && next[|base|] == '/'))
               && '\\' !in next && '\r' !in next && '\n' !in next && !Doubled(next, '/') && !Doubled(next, '.')
            then next else base
  {
    PairOccurs(next, '/');
    PairOccurs(next, '.');
    assert "//" == ['/', '/'] && ".." == ['.', '.'];
    var base := ContentPath(slug);
    assert base + "/" <= next <==> |next| > |base| && next[..|base|] == base && next[|base|] == '/' by {
      if |next| > |base| && next[..|base|] == base && next[|base|] == '/' {
        assert next[..|base| + 1] == base + "/";
      }
    }
    assert ContainsAny(next, "\\\r\n") <==> '\\' in next || '\r' in next || '\n' in next by {
      assert forall c :: c in "\\\r\n" <==> c == '\\' || c == '\r' || c == '\n';
    }
  }

  // ----- Paths inside an archive ---------------------------------------------------------------------

  function Split(path: string): (parts: seq<string>)
    ensures parts != []
    ensures forall i :: 0 <= i < |parts| ==> '/' !in parts[i]
  {
    if path == "" then [""]
    else
      var rest := Split(path[1..]);
      if path[0] == '/' then [""] + rest else [[path[0]] + rest[0]] + rest[1..]
  }

  function Join(parts: seq<string>): string {
    if parts == [] then ""
    else if |parts| == 1 then parts[0]
    else parts[0] + "/" + Join(parts[1..])
  }

  predicate IsHidden(path: string) {
    exists part | part in Split(path) :: "." <= part
  }

  /** Resolves "." and ".." against the elements kept so far. */
  function Resolve(parts: seq<string>, rooted: bool, kept: seq<string>): seq<string> {
    if parts == [] then kept
    else
      var part := parts[0];
      var kept' :=
        if part == "" || part == "." then kept
        else if part == ".." then
          if kept != [] && kept[|kept| - 1] != ".." then kept[..|kept| - 1]
          else if rooted then kept
          else kept + [".."]
        else kept + [part];
      Resolve(parts[1..], rooted, kept')
  }

  /** Lexical cleaning of a slash-separated path. */
  function Clean(path: string): string {
    var rooted := path != "" && path[0] == '/';
    var out := Join(Resolve(Split(path), rooted, []));
    if rooted then "/" + out else if out == "" then "." else out
  }

  function NormalizeFilePath(path: string): string {
    var clean := Clean(path);
    if ".." <= clean || "/" <= clean || "\\" <= clean then "" else clean
  }

  /** The path an archive member is stored under, if it is stored at all. */
  function StoredPath(name: GoString): (r: Option<GoString>) {
    if "__MACOSX" <= name || IsHidden(name) then None
    else if NormalizeFilePath(name) == "" then None
    else
      NormalizedIsShort(name);
      Some(NormalizeFilePath(name))
  }

  function NonEmpty(parts: seq<string>): (kept: seq<string>)
    ensures forall i :: 0 <= i < |kept| ==> kept[i] in parts && kept[i] != ""
  {
    if parts == [] then []
    else if parts[0] == "" then NonEmpty(parts[1..])
    else [parts[0]] + NonEmpty(parts[1..])
  }

  lemma {:induction false} ResolveOrdinary(parts: seq<string>, rooted: bool, kept: seq<string>)
    requires forall i :: 0 <= i < |parts| ==> !("." <= parts[i])
    ensures Resolve(parts, rooted, kept) == kept + NonEmpty(parts)
  {
    if parts == [] {
    } else {
      assert !("." <= parts[0]);
      ResolveOrdinary(parts[1..], rooted, if parts[0] == "" then kept else kept + [parts[0]]);
    }
  }

  /** Joining and splitting are inverse on non-empty lists of slash-free elements. */
  lemma {:induction false} SplitJoin(parts: seq<string>)
    requires parts != [] && forall i :: 0 <= i < |parts| ==> '/' !in parts[i]
    ensures Split(Join(parts)) == parts
  {
    if |parts| == 1 {
      SplitElement(parts[0], "");
      assert parts[0] + "" == parts[0];
      assert parts == [parts[0]];
    } else {
      SplitJoin(parts[1..]);
      assert Join(parts) == parts[0] + ("/" + Join(parts[1..]));
      SplitElement(parts[0], "/" + Join(parts[1..]));
      assert ("/" + Join(parts[1..]))[1..] == Join(parts[1..]);
      assert parts == [parts[0]] + parts[1..];
    }
  }

  lemma {:induction false} SplitElement(element: string, rest: string)
    requires '/' !in element && Rooted(rest)
    ensures Split(element + rest) == [element] + Split(rest)[1..]
  {
    if element == "" {
      assert element + rest == rest;
    } else {
      var text := element + rest;
      assert text[1..] == element[1..] + rest;
      assert text[0] == element[0] && element[0] in element;
      SplitElement(element[1..], rest);
      assert [element[0]] + element[1..] == element;
      assert ([element[1..]] + Split(rest)[1..])[1..] == Split(rest)[1..];
    }
  }

  lemma {:induction false} JoinNonEmptySplit(path: string)
    ensures |Join(NonEmpty(Split(path)))| <= |path|
    ensures forall c :: c in Join(NonEmpty(Split(path))) ==> c in path || c == '/'
  {
    if path == "" {
      assert NonEmpty([""]) == [];
    } else {
      var rest := Split(path[1..]);
      JoinNonEmptySplit(path[1..]);
      if path[0] == '/' {
        assert ([""] + rest)[1..] == rest;
      } else {
        var first := [path[0]] + rest[0];
        assert ([first] + rest[1..])[1..] == rest[1..];
        assert NonEmpty(Split(path)) == [first] + NonEmpty(rest[1..]);
        if rest[0] == "" {
          assert NonEmpty(rest) == NonEmpty(rest[1..]);
          JoinLead(first, NonEmpty(rest));
          SplitLead(path[1..]);
        } else {
          assert NonEmpty(rest) == [rest[0]] + NonEmpty(rest[1..]);
          JoinPush(path[0], rest[0], NonEmpty(rest[1..]));
        }
      }
    }
  }

  lemma JoinLead(first: string, others: seq<string>)
    ensures Join([first] + others) == if others == [] then first else first + "/" + Join(others)
  {
    assert ([first] + others)[1..] == others;
  }

  lemma JoinPush(c: char, first: string, others: seq<string>)
    ensures Join([[c] + first] + others) == [c] + Join([first] + others)
  {
    JoinLead([c] + first, others);
    JoinLead(first, others);
  }

  /** A path whose first element is empty is empty or spends a character on the slash. */
  lemma SplitLead(path: string)
    requires Split(path)[0] == ""
    ensures path == "" || (path[0] == '/' && Split(path) == [""] + Split(path[1..]))
    ensures NonEmpty(Split(path)) != [] ==> |Join(NonEmpty(Split(path)))| < |path|
  {
    if path == "" {
      assert NonEmpty([""]) == [];
    } else {
      assert Split(path)[1..] == Split(path[1..]);
      JoinNonEmptySplit(path[1..]);
    }
  }

  lemma VisibleParts(name: string)
    requires !IsHidden(name)
    ensures forall i :: 0 <= i < |Split(name)| ==> !("." <= Split(name)[i])
  {
    forall i | 0 <= i < |Split(name)|
      ensures !("." <= Split(name)[i])
    {
      assert Split(name)[i] in Split(name);
    }
  }

  lemma SplitHead(name: string)
    requires name != ""
    ensures Split(name)[0] == "" <==> name[0] == '/'
    ensures name[0] != '/' ==> Split(name)[0][0] == name[0]
  {
  }

  /** For a name that is not empty and not hidden, cleaning only collapses slashes. */
  lemma CleanOnlyCollapses(name: string)
    requires name != "" && !IsHidden(name)
    ensures Clean(name) == (if name[0] == '/' then "/" else "") + Join(NonEmpty(Split(name)))
    ensures name[0] != '/' ==> NonEmpty(Split(name)) != [] && Join(NonEmpty(Split(name)))[..1] == name[..1]
  {
    hide Split, Resolve, Join, IsHidden;
    var parts := Split(name);
    VisibleParts(name);
    ResolveOrdinary(parts, name[0] == '/', []);
    assert [] + NonEmpty(parts) == NonEmpty(parts);
    SplitHead(name);
    if name[0] != '/' {
      JoinLead(parts[0], NonEmpty(parts[1..]));
      assert NonEmpty(parts) == [parts[0]] + NonEmpty(parts[1..]);
    }
  }

  lemma NormalizedIsShort(name: GoString)
    requires !IsHidden(name)
    ensures |NormalizeFilePath(name)| < TWO_TO_THE_64
    ensures forall i :: 0 <= i < |NormalizeFilePath(name)| ==> NormalizeFilePath(name)[i] as int < 256
  {
    if name == "" {
      EmptyNameNormalizes();
    } else {
      CleanOnlyCollapses(name);
      JoinNonEmptySplit(name);
      var path := NormalizeFilePath(name);
      forall i | 0 <= i < |path|
        ensures path[i] as int < 256
      {
        assert path[i] in path;
      }
    }
  }

  lemma EmptyNameNormalizes()
    ensures NormalizeFilePath("") == "."
  {
    assert Split("") == [""];
    assert Resolve([""], false, []) == Resolve([], false, []) == [];
    var dot := Clean("");
    assert dot == "." && dot[0] == '.';
    assert !("/" <= dot) && !("\\" <= dot);
  }

  /** The one name that is neither hidden nor rejected and yet does not name a file: the empty one. */
  lemma EmptyNameIsDot()
    ensures StoredPath("") == Some(".")
  {
    EmptyNameNormalizes();
    assert Split("") == [""];
    assert !IsHidden("");
  }

  /** Which archive names are stored, and where. */
  lemma StoredPathConfined(name: GoString)
    requires name != "" && !IsHidden(name) && !("__MACOSX" <= name)
    ensures StoredPath(name).Some? <==> name[0] != '/' && name[0] != '\\'
    ensures StoredPath(name).Some? ==>
              var parts := Split(StoredPath(name).value);
              && parts == NonEmpty(Split(name))
              && forall i :: 0 <= i < |parts| ==> parts[i] != "" && parts[i][0] != '.'
  {
    CleanOnlyCollapses(name);
    var parts := NonEmpty(Split(name));
    if name[0] != '/' {
      SplitJoin(parts);
      forall i | 0 <= i < |parts|
        ensures parts[i] != "" && parts[i][0] != '.'
      {
        assert parts[i] in Split(name) && !("." <= parts[i]);
      }
      var path := Join(parts);
      assert path[0] == path[..1][0] == name[..1][0] == name[0];
      assert path == Clean(name);
      assert "\\" <= path <==> path[0] == '\\';
      assert !("/" <= path) && !(".." <= path);
      assert Split(name)[0][0] == name[0];
      assert !("." <= Split(name)[0]);
    }
  }
}
