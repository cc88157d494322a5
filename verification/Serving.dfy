/** The visitor's side: unlocking an entry, the cookie that remembers it, and serving files with it. */
module Serving {
  import opened Wrappers
  import opened ByteStrings
  import opened Clock
  import opened Sealing
  import opened Store
  import opened Requests
  import opened Invariants
  import opened Runs
  import opened Readers
  import opened UnlockTokens
  import opened ContentService
  import Base64Url
  import Paths
  import Refinement
  import Revocation

  datatype Message = NoMessage | EnterPassphrase | TryAgain | LockedAgain

  datatype Body =
    | Page(data: Blob, contentType: string, allowExternal: bool, isPrivate: bool)
    | UnlockForm(slug: GoString, next: string, message: Message)
    | Redirect(location: string)
    | NotFoundPage
    | ForbiddenPage
    | InternalErrorPage

  datatype CookieChange = KeepCookie | SetCookie(token: string, path: string) | ClearCookie(path: string)

  datatype Reply = Reply(body: Body, cookie: CookieChange)

  function Prompt(slug: GoString, next: string, message: Message): Body {
    UnlockForm(slug, Paths.SafeNext(slug, next), message)
  }

  // ----- Replies --------------------------------------------------------------------------------------------

  /** The reply to a passphrase that does not unlock; `next` is already confined. */
  function TurnedDown(slug: GoString, next: string, e: Error): Reply {
    Reply(match e
          case PassphraseRequired => Prompt(slug, next, EnterPassphrase)
          case WrongPassphrase => Prompt(slug, next, TryAgain)
          case NotFound => NotFoundPage
          case NotEncrypted => Redirect(next)
          case _ => InternalErrorPage,
          KeepCookie)
  }

  function FileReply(slug: GoString, urlPath: string, answer: Answer): Reply {
    match answer
    case Served(data, contentType, allowExternal, encrypted) =>
      Reply(Page(data, contentType, allowExternal, encrypted), KeepCookie)
    case Refused(PassphraseRequired) => Reply(Prompt(slug, urlPath, NoMessage), KeepCookie)
    case Refused(Corrupted) => Reply(Prompt(slug, urlPath, LockedAgain), ClearCookie(Paths.ContentPath(slug)))
    case Refused(NotFound) => Reply(NotFoundPage, KeepCookie)
    case Refused(InvalidFilePath) => Reply(NotFoundPage, KeepCookie)
    case Refused(_) => Reply(InternalErrorPage, KeepCookie)
  }

  /** The key a cookie stands for; none when there is no cookie or it is no longer good. */
  function CookieKey(minted: map<seq<Byte>, Mint>, key: TokenKey, slug: GoString, cookie: Option<string>,
                     now: Instant): seq<Byte> {
    if cookie.None? || cookie.value == "" then []
    else
      match Redeem(minted, key, slug, cookie.value, now)
      case None => []
      case Some(dek) => dek
  }

  /** Everything a request for a file may be answered with. */
  ghost function FileReplies(db: Db, slug: GoString, path: GoString, urlPath: string, dek: seq<Byte>): set<Reply> {
    set a | a in Answers(db, slug, path, dek) :: FileReply(slug, urlPath, a)
  }

  // ----- The handler ------------------------------------------------------------------------------------------

  class ServingHandler {
    const svc: Service
    const unlocker: Unlocker

    constructor (svc: Service, unlocker: Unlocker)
      ensures this.svc == svc && this.unlocker == unlocker
    {
      this.svc, this.unlocker := svc, unlocker;
    }

    /** Checks a visitor's passphrase; the right one is answered with a token for this slug. */
    method Unlock(slug: GoString, passphrase: string, nextField: string, now: Instant, ciphertext: seq<Byte>)
      returns (reply: Reply)
      requires svc.db.Valid() && unlocker.cipher.Valid() && ciphertext !in unlocker.cipher.log
      modifies unlocker.cipher
      ensures svc.db.Valid() && unlocker.cipher.Valid() && svc.db.View() == old(svc.db.View())
      ensures var next, minted := Paths.SafeNext(slug, nextField), unlocker.cipher.minted;
              || (reply == Reply(InternalErrorPage, KeepCookie) && !svc.db.reliable
                  && minted == old(unlocker.cipher.minted))
              || match UnlockResult(svc.db.View(), slug, passphrase)
                 case Err(e) => reply == TurnedDown(slug, next, e) && minted == old(unlocker.cipher.minted)
                 case Ok(dek) =>
                   && reply == Reply(Redirect(next), SetCookie(Base64Url.Encode(ciphertext), Paths.ContentPath(slug)))
                   && minted ==
                      old(unlocker.cipher.minted)[ciphertext := Mint(unlocker.key, slug, dek, now, unlocker.ttl)]
    {
      var next := Paths.SafeNext(slug, nextField);
      var dek := svc.Unlock(slug, passphrase);
      if dek.Err? {
        return TurnedDown(slug, next, dek.error);
      }
      var token := unlocker.Seal(slug, dek.value, now, ciphertext);
      if token.None? {
        return Reply(InternalErrorPage, KeepCookie);
      }
      reply := Reply(Redirect(next), SetCookie(token.value, Paths.ContentPath(slug)));
    }

    /** The key that a cookie stands for at this server. */
    ghost function HeldKey(slug: GoString, cookie: Option<string>, now: Instant): seq<Byte>
      reads unlocker.cipher
    {
      CookieKey(unlocker.cipher.minted, unlocker.key, slug, cookie, now)
    }

    method DekFromCookie(slug: GoString, cookie: Option<string>, now: Instant) returns (dek: seq<Byte>)
      requires unlocker.cipher.Valid()
      ensures dek == HeldKey(slug, cookie, now)
    {
      if cookie.None? || cookie.value == "" {
        return [];
      }
      var key := unlocker.Open(slug, cookie.value, now);
      dek := if key.None? then [] else key.value;
    }

    method ServeContent(slug: GoString, path: GoString, urlPath: string, cookie: Option<string>, now: Instant)
      returns (reply: Reply)
      requires svc.db.Valid() && unlocker.cipher.Valid()
      ensures || reply in FileReplies(svc.db.View(), slug, path, urlPath, HeldKey(slug, cookie, now))
              || (reply == Reply(InternalErrorPage, KeepCookie) && !svc.db.reliable)
    {
      var dek := DekFromCookie(slug, cookie, now);
      var answer := svc.GetFile(slug, path, dek);
      reply := FileReply(slug, urlPath, answer);
    }

    method ServeFile(slug: GoString, path: GoString, urlPath: string, cookie: Option<string>, now: Instant)
      returns (reply: Reply)
      requires svc.db.Valid() && unlocker.cipher.Valid()
      ensures Paths.Contains(path, "..") ==> reply == Reply(ForbiddenPage, KeepCookie)
      ensures !Paths.Contains(path, "..") ==>
                || reply in FileReplies(svc.db.View(), slug, path, urlPath, HeldKey(slug, cookie, now))
                || (reply == Reply(InternalErrorPage, KeepCookie) && !svc.db.reliable)
    {
      if Paths.Contains(path, "..") {
        return Reply(ForbiddenPage, KeepCookie);
      }
      reply := ServeContent(slug, path, urlPath, cookie, now);
    }
  }

  /**
   * Where a reply of the unlock handler or of the file handler leads, dot segments removed, is under the content's
   * path.
   */
  predicate StaysInside(slug: GoString, reply: Reply) {
    match reply.body
    case Redirect(location) => Paths.Under(slug, Paths.Destination(location))
    case UnlockForm(_, next, _) => Paths.Under(slug, Paths.Destination(next)) && Paths.AcceptsNext(slug, next)
    case _ => true
  }

  lemma ValidSlugStaysInside(slug: GoString, nextField: string, urlPath: string, e: Error, answer: Answer)
    requires Paths.ValidSlug(slug)
    ensures StaysInside(slug, TurnedDown(slug, Paths.SafeNext(slug, nextField), e))
    ensures StaysInside(slug, FileReply(slug, urlPath, answer))
    ensures Paths.Under(slug, Paths.Destination(Paths.SafeNext(slug, nextField)))
  {
    hide Paths.Under, Paths.Destination, Paths.SafeNext, Paths.AcceptsNext;
    Paths.SafeNextConfines(slug, nextField);
    Paths.SafeNextConfines(slug, urlPath);
    Paths.SafeNextConfines(slug, Paths.SafeNext(slug, nextField));
  }

  /** A slug that no entry can have is "not found", whatever is asked of it. */
  lemma InvalidSlugIsNotFound(db: Db, slug: GoString, passphrase: string, path: GoString, urlPath: string,
                              dek: seq<Byte>)
    requires SlugsValid(db) && !Paths.ValidSlug(slug)
    ensures UnlockResult(db, slug, passphrase) == Err(NotFound)
    ensures FileReplies(db, slug, path, urlPath, dek) == {Reply(NotFoundPage, KeepCookie)}
  {
    assert Ids(db, slug) == {} && Hits(db, slug, path) == {};
    OneReply(db, slug, path, urlPath, dek,
             if Paths.Contains(path, "..") then Refused(InvalidFilePath) else Refused(NotFound));
  }

  /**
   * Whatever slug is asked for, in whatever state of a run: every reply of both handlers stays inside, no refused
   * passphrase touches the cookie, and when a file is served only "corrupted" does.
   */
  lemma RepliesStayInside(states: seq<Db>, requests: seq<Request>, i: nat, slug: GoString, passphrase: string,
                          nextField: string, path: GoString, urlPath: string, dek: seq<Byte>)
    requires IsRun(states, requests) && i < |states| && SlugsValid(states[0])
    ensures var next := Paths.SafeNext(slug, nextField);
            match UnlockResult(states[i], slug, passphrase)
            case Err(e) =>
              var reply := TurnedDown(slug, next, e);
              StaysInside(slug, reply) && reply.cookie == KeepCookie
            case Ok(_) => Paths.ValidSlug(slug) && Paths.Under(slug, Paths.Destination(next))
    ensures forall answer :: answer in Answers(states[i], slug, path, dek) ==>
                               var reply := FileReply(slug, urlPath, answer);
                               && StaysInside(slug, reply)
                               && (reply.cookie != KeepCookie <==> answer == Refused(Corrupted))
  {
    hide StaysInside, Paths.Under, Paths.Destination, Paths.SafeNext, Paths.ValidSlug, UnlockResult, Answers,
         SlugsValid;
    RunsKeepSlugsValid(states, requests, i);
    NotFoundStaysInside(slug, Paths.SafeNext(slug, nextField));
    if Paths.ValidSlug(slug) {
      ValidSlugStaysInside(slug, nextField, urlPath, NotFound, Refused(NotFound));
      if UnlockResult(states[i], slug, passphrase).Err? {
        ValidSlugStaysInside(slug, nextField, urlPath, UnlockResult(states[i], slug, passphrase).error,
                             Refused(NotFound));
      }
      forall answer | answer in Answers(states[i], slug, path, dek)
        ensures StaysInside(slug, FileReply(slug, urlPath, answer))
      {
        ValidSlugStaysInside(slug, nextField, urlPath, NotFound, answer);
      }
    } else {
      InvalidSlugIsNotFound(states[i], slug, passphrase, path, urlPath, dek);
      forall answer | answer in Answers(states[i], slug, path, dek)
        ensures StaysInside(slug, FileReply(slug, urlPath, answer))
      {
        assert FileReply(slug, urlPath, answer) in FileReplies(states[i], slug, path, urlPath, dek);
      }
    }
  }

  lemma NotFoundStaysInside(slug: GoString, next: string)
    ensures StaysInside(slug, Reply(NotFoundPage, KeepCookie)) && StaysInside(slug, TurnedDown(slug, next, NotFound))
  {
  }

  // ----- End to end ---------------------------------------------------------------------------------------------

  /** The pages stored under a path, as the entry's key opens them. */
  ghost function PagesAt(db: Db, id: nat, path: GoString): set<Reply>
    requires id in db.contents
  {
    set f | f in Rows(db, id) && db.files[f].path == path ::
      Reply(Page(Bytes(PlaintextOf(db.contents[id], db.files[f])), db.files[f].contentType,
                 db.contents[id].allowExternal, true), KeepCookie)
  }

  /** The pages stored under a path of a public entry, as they are stored. */
  ghost function PublicPagesAt(db: Db, id: nat, path: GoString): set<Reply>
    requires id in db.contents
  {
    set f | f in Rows(db, id) && db.files[f].path == path && db.files[f].data.Bytes? ::
      Reply(Page(Bytes(db.files[f].data.raw), db.files[f].contentType, db.contents[id].allowExternal, false),
            KeepCookie)
  }

  /** A public entry shows every visitor the pages stored under a path, and "not found" where there is none. */
  lemma PublicReplies(db: Db, slug: GoString, id: nat, path: GoString, urlPath: string, dek: seq<Byte>)
    requires WellFormed(db) && Consistent(db, id) && id in Ids(db, slug) && KeyOf(db.contents[id]).None?
    requires forall i {:trigger path[i]} :: 0 < i < |path| && path[i - 1] == '.' ==> path[i] != '.'
    ensures FileReplies(db, slug, path, urlPath, dek) ==
            if PublicPagesAt(db, id, path) == {} then {Reply(NotFoundPage, KeepCookie)} else PublicPagesAt(db, id, path)
    ensures PublicPagesAt(db, id, path) == {} <==> !exists f :: f in Rows(db, id) && db.files[f].path == path
  {
    Paths.PairOccurs(path, '.');
    assert ".." == ['.', '.'];
    HitsAreRows(db, slug, path, id);
    forall f | f in Rows(db, id) && db.files[f].path == path
      ensures db.files[f].data.Bytes? && f in Hits(db, slug, path)
      ensures Reply(Page(Bytes(db.files[f].data.raw), db.files[f].contentType, db.contents[id].allowExternal, false),
                    KeepCookie) in PublicPagesAt(db, id, path)
    {
      assert Agrees(db.contents[id], db.files[f]);
    }
    if Hits(db, slug, path) == {} {
      MissingIsNotFound(db, slug, id, dek);
      OneReply(db, slug, path, urlPath, dek, Refused(NotFound));
    } else {
      PublicAnswers(db, slug, id, path, urlPath, dek);
    }
  }

  lemma MissingIsNotFound(db: Db, slug: GoString, id: nat, dek: seq<Byte>)
    requires WellFormed(db) && id in Ids(db, slug) && KeyOf(db.contents[id]).None?
    ensures MissingAnswer(db, slug, dek) == Refused(NotFound)
  {
    LoadFinds(db, slug, id);
    EncryptedReadingsAgree(id, db.contents[id]);
  }

  lemma PublicAnswers(db: Db, slug: GoString, id: nat, path: GoString, urlPath: string, dek: seq<Byte>)
    requires WellFormed(db) && Consistent(db, id) && id in Ids(db, slug) && KeyOf(db.contents[id]).None?
    requires !Paths.Contains(path, "..") && Hits(db, slug, path) != {}
    ensures FileReplies(db, slug, path, urlPath, dek) == PublicPagesAt(db, id, path)
  {
    ReadsAreExact(db, slug, id, path, dek);
    forall f | f in Rows(db, id) && db.files[f].path == path
      ensures db.files[f].data == Bytes(PlaintextOf(db.contents[id], db.files[f]))
      ensures ServedRow(db.contents[id], db.files[f]) in Answers(db, slug, path, dek)
    {
      assert Agrees(db.contents[id], db.files[f]);
    }
  }

  /** A slug that names no entry is "not found" to both handlers. */
  lemma NoEntryReplies(db: Db, slug: GoString, passphrase: string, path: GoString, urlPath: string, dek: seq<Byte>)
    requires Ids(db, slug) == {}
    ensures UnlockResult(db, slug, passphrase) == Err(NotFound)
    ensures TurnedDown(slug, Paths.SafeNext(slug, urlPath), NotFound) == Reply(NotFoundPage, KeepCookie)
    ensures FileReplies(db, slug, path, urlPath, dek) == {Reply(NotFoundPage, KeepCookie)}
  {
    assert forall f :: f in Hits(db, slug, path) ==> db.files[f].contentId in Ids(db, slug);
    OneReply(db, slug, path, urlPath, dek,
             if Paths.Contains(path, "..") then Refused(InvalidFilePath) else Refused(NotFound));
  }

  /**
   * What the unlock handler answers, by the entry's passphrase: a public entry is just shown, no passphrase and a wrong
   * one get the form again, each with its own message, and the right one is accepted. Forms and redirects lead to the
   * confined target.
   */
  lemma UnlockReplies(db: Db, slug: GoString, id: nat, passphrase: string, nextField: string)
    requires WellFormed(db) && id in Ids(db, slug) && Paths.ValidSlug(slug)
    ensures var next, stored := Paths.SafeNext(slug, nextField), PassphraseOf(db.contents[id]);
            match UnlockResult(db, slug, passphrase)
            case Ok(dek) => stored == Some(passphrase) && passphrase != "" && KeyOf(db.contents[id]) == Some(dek)
            case Err(e) =>
              && (stored != Some(passphrase) || passphrase == "")
              && TurnedDown(slug, next, e) ==
                 Reply(if stored == None then Redirect(next)
                       else UnlockForm(slug, next, if passphrase == "" then EnterPassphrase else TryAgain), KeepCookie)
  {
    UnlockIsExact(db, slug, id, passphrase);
    EncryptedReadingsAgree(id, db.contents[id]);
    Paths.SafeNextConfines(slug, nextField);
    hide Paths.SafeNext, UnlockResult;
  }

  /** What a visitor of an encrypted entry gets, by the key that visitor holds. */
  lemma KeyDecidesReply(db: Db, slug: GoString, id: nat, path: GoString, urlPath: string, dek: seq<Byte>)
    requires WellFormed(db) && Consistent(db, id) && id in Ids(db, slug) && KeyOf(db.contents[id]).Some?
    requires !Paths.Contains(path, "..")
    ensures FileReplies(db, slug, path, urlPath, dek) ==
            if dek == [] then {Reply(Prompt(slug, urlPath, NoMessage), KeepCookie)}
            else if Hits(db, slug, path) == {} then {Reply(NotFoundPage, KeepCookie)}
            else if Some(dek) == KeyOf(db.contents[id]) then PagesAt(db, id, path)
            else {Reply(Prompt(slug, urlPath, LockedAgain), ClearCookie(Paths.ContentPath(slug)))}
  {
    var answers := Answers(db, slug, path, dek);
    if dek == [] {
      LockedAnswersAreUniform(db, slug, id, path);
      OneReply(db, slug, path, urlPath, dek, Refused(PassphraseRequired));
    } else if Hits(db, slug, path) == {} {
      OneReply(db, slug, path, urlPath, dek, Refused(NotFound));
    } else {
      ReadsAreExact(db, slug, id, path, dek);
      if Some(dek) != KeyOf(db.contents[id]) {
        OneReply(db, slug, path, urlPath, dek, Refused(Corrupted));
      } else {
        PagesAreReplies(db, slug, id, path, urlPath, dek);
      }
    }
  }

  lemma OneReply(db: Db, slug: GoString, path: GoString, urlPath: string, dek: seq<Byte>, answer: Answer)
    requires Answers(db, slug, path, dek) == {answer}
    ensures FileReplies(db, slug, path, urlPath, dek) == {FileReply(slug, urlPath, answer)}
  {
    assert answer in Answers(db, slug, path, dek);
  }

  function ServedRow(row: ContentRow, file: FileRow): Answer {
    Served(Bytes(PlaintextOf(row, file)), file.contentType, row.allowExternal, KeyOf(row).Some?)
  }

  lemma PagesAreReplies(db: Db, slug: GoString, id: nat, path: GoString, urlPath: string, dek: seq<Byte>)
    requires id in db.contents && KeyOf(db.contents[id]).Some?
    requires Answers(db, slug, path, dek) == set f | f in Rows(db, id) && db.files[f].path == path ::
                                               ServedRow(db.contents[id], db.files[f])
    ensures FileReplies(db, slug, path, urlPath, dek) == PagesAt(db, id, path)
  {
    forall f | f in Rows(db, id) && db.files[f].path == path
      ensures ServedRow(db.contents[id], db.files[f]) in Answers(db, slug, path, dek)
    {
    }
  }

  /**
   * A visitor who unlocked an entry, some time later, at whatever state the entry is then in: past the deadline the
   * form; before it the stored plaintexts as long as the key is current, and once it is not, the form again with the
   * cookie cleared. A path that is not stored is "not found" to a visitor with a key.
   */
  lemma UnlockThenVisit(before: Db, now: Db, minted: map<seq<Byte>, Mint>, sealed: seq<Byte>, time: Instant,
                        slug: GoString, passphrase: string, id: nat, path: GoString, urlPath: string)
    requires UnlockResult(before, slug, passphrase).Ok? && sealed in minted && sealed != []
    requires minted[sealed].slug == slug && minted[sealed].dek == UnlockResult(before, slug, passphrase).value
    requires WellFormed(now) && Consistent(now, id) && id in Ids(now, slug) && KeyOf(now.contents[id]).Some?
    requires !Paths.Contains(path, "..")
    ensures FileReplies(now, slug, path, urlPath,
                        CookieKey(minted, minted[sealed].key, slug, Some(Base64Url.Encode(sealed)), time)) ==
            if time >= minted[sealed].Until() then {Reply(Prompt(slug, urlPath, NoMessage), KeepCookie)}
            else if Hits(now, slug, path) == {} then {Reply(NotFoundPage, KeepCookie)}
            else if KeyOf(now.contents[id]) == Some(UnlockResult(before, slug, passphrase).value)
            then PagesAt(now, id, path)
            else {Reply(Prompt(slug, urlPath, LockedAgain), ClearCookie(Paths.ContentPath(slug)))}
  {
    var dek := UnlockResult(before, slug, passphrase).value;
    Base64Url.RoundTrip(sealed);
    var held := CookieKey(minted, minted[sealed].key, slug, Some(Base64Url.Encode(sealed)), time);
    assert held == if time < minted[sealed].Until() then dek else [];
    KeyDecidesReply(now, slug, id, path, urlPath, held);
  }

  /**
   * A visitor holds a key exactly when there is a cookie with a token that gives it; every other visitor holds none.
   */
  lemma HeldKeyExactly(minted: map<seq<Byte>, Mint>, key: TokenKey, slug: GoString, cookie: Option<string>,
                       now: Instant, dek: Dek)
    ensures var held := CookieKey(minted, key, slug, cookie, now);
            && (held == dek <==>
                  cookie.Some? && cookie.value != "" && Redeem(minted, key, slug, cookie.value, now) == Some(dek))
            && (held == [] || |held| == KEY_LEN)
  {
    hide Redeem;
  }

  /**
   * A cookie for one slug is no cookie for another, and a cookie made with one secret none at a server with another.
   */
  lemma CookiesStayWithTheirSlug(minted: map<seq<Byte>, Mint>, sealed: seq<Byte>, key: TokenKey, slug: GoString,
                                 time: Instant)
    requires sealed in minted && (minted[sealed].slug != slug || minted[sealed].key != key)
    ensures CookieKey(minted, key, slug, Some(Base64Url.Encode(sealed)), time) == []
  {
    Base64Url.RoundTrip(sealed);
  }

  /** Rotating the passphrase locks out every visitor who unlocked before, at the next stored path they ask for. */
  lemma RotationLocksOut(db: Db, p: UpdateParams, draw: Draw, id: nat, passphrase: string,
                         minted: map<seq<Byte>, Mint>, sealed: seq<Byte>, time: Instant, path: GoString,
                         urlPath: string)
    requires WellFormed(db) && Consistent(db, id) && id in Ids(db, p.slug) && UnlockResult(db, p.slug, passphrase).Ok?
    requires sealed in minted && sealed != []
    requires minted[sealed].slug == p.slug && minted[sealed].dek == UnlockResult(db, p.slug, passphrase).value
    requires UpdatePlan(db, p, draw).writes != [] && p.newPassphrase != "" && !p.removeEncryption
    requires Some(draw.dek) != KeyOf(db.contents[id])
    requires Hits(After(db, UpdatePlan(db, p, draw).writes), p.slug, path) != {} && !Paths.Contains(path, "..")
    requires time < minted[sealed].Until()
    ensures var now := After(db, UpdatePlan(db, p, draw).writes);
            FileReplies(now, p.slug, path, urlPath,
                        CookieKey(minted, minted[sealed].key, p.slug, Some(Base64Url.Encode(sealed)), time)) ==
            {Reply(Prompt(p.slug, urlPath, LockedAgain), ClearCookie(Paths.ContentPath(p.slug)))}
  {
    var now := After(db, UpdatePlan(db, p, draw).writes);
    UnlockIsExact(db, p.slug, id, passphrase);
    EncryptedReadingsAgree(id, db.contents[id]);
    RotationKey(db, p, draw, id);
    UnlockThenVisit(db, now, minted, sealed, time, p.slug, passphrase, id, path, urlPath);
  }

  /** A finished rotation leaves the entry encrypted, in step, and under another key. */
  lemma RotationKey(db: Db, p: UpdateParams, draw: Draw, id: nat)
    requires WellFormed(db) && Consistent(db, id) && id in Ids(db, p.slug) && KeyOf(db.contents[id]).Some?
    requires Some(draw.dek) != KeyOf(db.contents[id])
    requires UpdatePlan(db, p, draw).writes != [] && p.newPassphrase != "" && !p.removeEncryption
    ensures var now := After(db, UpdatePlan(db, p, draw).writes);
            && WellFormed(now) && Consistent(now, id) && id in Ids(now, p.slug)
            && KeyOf(now.contents[id]).Some? && KeyOf(now.contents[id]) != KeyOf(db.contents[id])
  {
    var now := After(db, UpdatePlan(db, p, draw).writes);
    Refinement.OwnedAgrees(db, p.slug, p.owner);
    OnlyEntry(db, p.slug, id);
    Refinement.UpdateRefines(db, p, draw);
    EncryptedReadingsAgree(id, db.contents[id]);
    var e := Refinement.PlainEntry(db, id);
    assert e.passphrase == Some(p.passphrase) && p.passphrase != "";
    Revocation.ChangeRevokes(db, p, draw, id);
    assert id in Refinement.Plain(now).entries;
    assert PassphraseOf(now.contents[id]) == Some(p.newPassphrase);
    EncryptedReadingsAgree(id, now.contents[id]);
  }

  lemma OnlyEntry(db: Db, slug: GoString, id: nat)
    requires Constrained(db) && id in Ids(db, slug) && Consistent(db, id)
    ensures SlugConsistent(db, slug)
  {
  }
}
