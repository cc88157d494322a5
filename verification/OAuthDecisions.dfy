/** Who gets what from the authorization server, said in terms of the fields of requests, clients and grants alone. */
module OAuthDecisions {
  import opened Wrappers
  import opened OAuthTokens
  import opened OAuthProtocol
  import opened OAuthSafety
  import opened OAuthLines
  import opened OAuthProvenance
  import opened OAuthService
  import KdfParams
  import M = Metadata

  // ----- The authorization endpoint ---------------------------------------------------------------------------------

  /** Each decision is made exactly when its own check is the first to fail, and a code is issued when none does. */
  lemma AuthorizeTable(clients: map<string, Client>, resource: string, r: AuthorizeRequest, user: string)
    ensures var d := DecideAuthorize(clients, resource, r, user);
            var known := r.clientId in clients;
            var registered := known && r.redirectUri in clients[r.clientId].redirectUris;
            var forCode := registered && r.responseType == "code";
            var challenged := forCode && r.challenge != Literal("");
            var hashed := challenged && r.challengeMethod == "S256";
            var targeted := hashed && (r.resource == "" || r.resource == resource);
            && (d == BadClient <==> !known)
            && (d == BadRedirectUri <==> known && !registered)
            && (d == UnsupportedResponseType <==> registered && !forCode)
            && (d == ChallengeRequired <==> forCode && !challenged)
            && (d == MethodNotS256 <==> challenged && !hashed)
            && (d == WrongTarget <==> hashed && !targeted)
            && (d == LoginFirst <==> targeted && user == "")
            && (d == IssueTo(user) <==> targeted && user != "")
            && (d.IssueTo? ==> d.username == user)
  {
  }

  // ----- The token endpoint -----------------------------------------------------------------------------------------

  /** A day of nanoseconds. */
  const DAY := 24 * 60 * 60 * 1_000_000_000

  /** The client is public, or its stored hash is that of the secret. */
  predicate Proven(client: Client, secret: string) {
    || client.authMethod == "none" || client.secretHash == None
    || (secret != "" && client.secretHash == Some(Hash(secret)))
  }

  /**
   * The token that an exchange which passed its checks answers with: for the row's user and this server, for an hour.
   */
  predicate AccessFor(access: Jwt, server: Server, username: string, at: int) {
    access == Signed(true, server.secret,
                     Claims(Some(username), Some("mcp"), OneAudience(server.baseUrl + "/mcp"), server.baseUrl,
                            at / 1_000_000_000, Some((at + 3600 * 1_000_000_000) / 1_000_000_000)))
  }

  /** Why the caller is refused before any grant is looked at. */
  ghost predicate CallerRefused(clients: map<string, Client>, clientId: string, secret: string, e: OAuthError) {
    match e
    case MissingClientId => clientId == ""
    case UnknownClient => clientId != "" && clientId !in clients
    case SecretRequired =>
      clientId != "" && clientId in clients && !Proven(clients[clientId], secret) && secret == ""
    case WrongSecret =>
      clientId != "" && clientId in clients && !Proven(clients[clientId], secret) && secret != ""
    case _ => false
  }

  /**
   * A refresh request gets tokens exactly when the token is not empty, the client is registered and public or proves
   * itself, and the row is there, the client's own and not expired. The row is then replaced by one for the same user,
   * client and resource that lasts thirty days. Every other request gets the refusal of the first condition that
   * fails; the row is gone when it was read.
   */
  lemma RefreshTable(server: Server, clients: map<string, Client>, rows: map<Ticket, Row>, clientId: string,
                     secret: string, token: string, at: Readings, refresh: string)
    ensures var (rows', outcome) :=
              Redeemed(server, clients, rows, RefreshRequest(clientId, secret, token), at, refresh);
            var t := Refresh(Hash(token));
            var proven := clientId != "" && clientId in clients && Proven(clients[clientId], secret);
            var complete := proven && token != "";
            var live := complete && t in rows;
            var timely := live && at.check <= rows[t].expiresAt;
            var own := timely && rows[t].clientId == clientId;
            && (outcome.Tokens? <==> own)
            && (own ==> outcome.refresh == refresh && AccessFor(outcome.access, server, rows[t].username, at.mint)
                        && rows' == (rows - {t})[Refresh(Hash(refresh)) :=
                                                 RefreshRow(clientId, rows[t].username, rows[t].resource,
                                                            at.persist + 30 * DAY)])
            && (forall e :: CallerRefused(clients, clientId, secret, e) ==> outcome == Failed(e))
            && (proven && !complete ==> outcome == Failed(InvalidRequest))
            && (complete && !live ==> outcome == Failed(UnknownGrant))
            && (live && !timely ==> outcome == Failed(ExpiredGrant))
            && (timely && !own ==> outcome == Failed(OtherClientsGrant))
            && (!live ==> rows' == rows)
            && (live && !own ==> rows' == rows - {t})
  {
  }

  /** The same for a code, with its redirect URI and the verifier of its challenge. */
  lemma AuthorizationCodeTable(server: Server, clients: map<string, Client>, rows: map<Ticket, Row>,
                               clientId: string, secret: string, redirectUri: string, code: string, verifier: string,
                               at: Readings, refresh: string)
    requires Code(code) in rows ==> rows[Code(code)].CodeRow?
    ensures var r := CodeRequest(clientId, secret, redirectUri, code, verifier);
            var (rows', outcome) := Redeemed(server, clients, rows, r, at, refresh);
            var t := Code(code);
            var proven := clientId != "" && clientId in clients && Proven(clients[clientId], secret);
            var complete := proven && code != "" && verifier != "";
            var live := complete && t in rows;
            var timely := live && at.check <= rows[t].expiresAt;
            var own := timely && rows[t].clientId == clientId;
            var aimed := own && rows[t].redirectUri == redirectUri;
            var verified := aimed && rows[t].challengeMethod == "S256" && rows[t].challenge == S256(verifier);
            && (outcome.Tokens? <==> verified)
            && (verified ==> outcome.refresh == refresh && AccessFor(outcome.access, server, rows[t].username, at.mint)
                             && rows' == (rows - {t})[Refresh(Hash(refresh)) :=
                                                      RefreshRow(clientId, rows[t].username, rows[t].resource,
                                                                 at.persist + 30 * DAY)])
            && (forall e :: CallerRefused(clients, clientId, secret, e) ==> outcome == Failed(e))
            && (proven && !complete ==> outcome == Failed(InvalidRequest))
            && (complete && !live ==> outcome == Failed(UnknownGrant))
            && (live && !timely ==> outcome == Failed(ExpiredGrant))
            && (timely && !own ==> outcome == Failed(OtherClientsGrant))
            && (own && !aimed ==> outcome == Failed(RedirectMismatch))
            && (aimed && !verified ==> outcome == Failed(PkceFailed))
            && (!live ==> rows' == rows)
            && (live && !verified ==> rows' == rows - {t})
  {
  }

  /** One of the reasons applies exactly when the caller is not proven. */
  lemma CallerRefusedExactly(clients: map<string, Client>, clientId: string, secret: string)
    ensures (exists e :: CallerRefused(clients, clientId, secret, e)) <==>
            !(clientId != "" && clientId in clients && Proven(clients[clientId], secret))
  {
    if clientId == "" {
      assert CallerRefused(clients, clientId, secret, MissingClientId);
    } else if clientId !in clients {
      assert CallerRefused(clients, clientId, secret, UnknownClient);
    } else if !Proven(clients[clientId], secret) {
      assert CallerRefused(clients, clientId, secret, if secret == "" then SecretRequired else WrongSecret);
    }
  }

  /** So a proper refresh request that runs undisturbed among any other exchanges gets its tokens, and no other does. */
  lemma ProperRefreshSucceeds(s: State, x: nat, clientId: string, secret: string, token: string, refresh: string,
                              a: nat, b: nat, c: nat)
    requires Tables(s) && x !in s.exchanges && Refresh(Hash(token)) !in s.locks && Refresh(Hash(refresh)) !in s.born
    ensures var t := Refresh(Hash(token));
            var s' := Run(s, SoloSteps(x, RefreshRequest(clientId, secret, token), refresh, a, b, c), 11);
            && x in s'.exchanges && s'.exchanges[x].phase.Finished?
            && (s'.exchanges[x].phase.outcome.Tokens? <==>
                  && clientId != "" && clientId in s.clients && Proven(s.clients[clientId], secret) && token != ""
                  && t in s.rows && s.now + a <= s.rows[t].expiresAt && s.rows[t].clientId == clientId)
            && (s'.exchanges[x].phase.outcome.Tokens? ==>
                  && AccessFor(s'.exchanges[x].phase.outcome.access, s.server, s.rows[t].username, s.now + a + b)
                  && s'.rows == (s.rows - {t})[Refresh(Hash(refresh)) :=
                                               RefreshRow(clientId, s.rows[t].username, s.rows[t].resource,
                                                          s.now + a + b + c + 30 * DAY)])
  {
    hide Redeemed, Next, Run;
    SoloExchange(s, x, RefreshRequest(clientId, secret, token), refresh, a, b, c);
    RefreshTable(s.server, s.clients, s.rows, clientId, secret, token, ReadingsFrom(s.now, a, b, c), refresh);
  }

  /** The same for a code. */
  lemma ProperCodeSucceeds(s: State, x: nat, clientId: string, secret: string, redirectUri: string, code: string,
                           verifier: string, refresh: string, a: nat, b: nat, c: nat)
    requires Tables(s) && x !in s.exchanges && Code(code) !in s.locks && Refresh(Hash(refresh)) !in s.born
    requires Code(code) in s.rows ==> s.rows[Code(code)].CodeRow?
    ensures var t := Code(code);
            var r := CodeRequest(clientId, secret, redirectUri, code, verifier);
            var s' := Run(s, SoloSteps(x, r, refresh, a, b, c), 11);
            && x in s'.exchanges && s'.exchanges[x].phase.Finished?
            && (s'.exchanges[x].phase.outcome.Tokens? <==>
                  && clientId != "" && clientId in s.clients && Proven(s.clients[clientId], secret)
                  && code != "" && verifier != ""
                  && t in s.rows && s.now + a <= s.rows[t].expiresAt && s.rows[t].clientId == clientId
                  && s.rows[t].redirectUri == redirectUri
                  && s.rows[t].challengeMethod == "S256" && s.rows[t].challenge == S256(verifier))
            && (s'.exchanges[x].phase.outcome.Tokens? ==>
                  && AccessFor(s'.exchanges[x].phase.outcome.access, s.server, s.rows[t].username, s.now + a + b)
                  && s'.rows == (s.rows - {t})[Refresh(Hash(refresh)) :=
                                               RefreshRow(clientId, s.rows[t].username, s.rows[t].resource,
                                                          s.now + a + b + c + 30 * DAY)])
  {
    hide Redeemed, Next, Run;
    SoloExchange(s, x, CodeRequest(clientId, secret, redirectUri, code, verifier), refresh, a, b, c);
    AuthorizationCodeTable(s.server, s.clients, s.rows, clientId, secret, redirectUri, code, verifier,
                           ReadingsFrom(s.now, a, b, c), refresh);
  }

  /** A code that is issued is good for five minutes and bound to what was asked. */
  lemma CodeRowExactly(r: AuthorizeRequest, user: string, now: int)
    ensures RowFor(r, user, now) == CodeRow(r.clientId, user, r.resource, now + 300 * 1_000_000_000, r.redirectUri,
                                            r.challenge, r.challengeMethod)
  {
  }

  /** In every state of every run the rows of codes are code rows, so that the tables above speak of all of them. */
  lemma CodesHaveCodeRows(server: Server, now: int, steps: seq<Step>, k: nat, code: string)
    requires k <= |steps| && Code(code) in Run(Initial(server, now), steps, k).rows
    ensures Run(Initial(server, now), steps, k).rows[Code(code)].CodeRow?
  {
    var s := Run(Initial(server, now), steps, k);
    RunKeepsProvenance(server, now, steps, k);
    InitialIsSafe(server, now);
    RunIsSafe(Initial(server, now), steps, k);
    CodeBirth(s, code);
  }

  // ----- Failures on the way ----------------------------------------------------------------------------------------

  /** All of an exchange's state but its phase is as before. */
  ghost predicate OnlyMoves(s: State, s': State, x: nat) {
    && s'.exchanges.Keys == s.exchanges.Keys && x in s.exchanges
    && s'.exchanges[x].request == s.exchanges[x].request
    && (forall y :: y in s.exchanges && y != x ==> s'.exchanges[y] == s.exchanges[y])
    && s'.now == s.now && s'.clients == s.clients && s'.server == s.server
  }

  /**
   * A commit that took effect has removed the row and the lock, whether or not that was reported; one that was lost has
   * left the row. The row is handed on exactly when the commit was reported.
   */
  lemma CommitOutcome(s: State, x: nat, fate: Fate)
    requires x in s.exchanges && s.exchanges[x].phase.Deleted?
    ensures var s', t := Next(s, Commit(x, fate)), s.exchanges[x].request.Ticket();
            && OnlyMoves(s, s', x)
            && s'.rows == (if fate == Lost then s.rows else s.rows - {t})
            && s'.spent == (if fate == Lost then s.spent else s.spent + {t})
            && s'.locks == s.locks - {t}
            && s'.exchanges[x].phase == (if fate == Success then Consumed(s.exchanges[x].phase.row)
                                         else Finished(Failed(ServerError)))
            && s'.returned == (if fate == Success then s.returned + [t] else s.returned)
  {
    assert Next(s, Commit(x, fate)) == CommitStep(s, x, fate);
    hide Next;
  }

  /** A failure of any statement leaves all rows; the lock of an open transaction goes. */
  lemma AbortOutcome(s: State, x: nat)
    requires x in s.exchanges && !s.exchanges[x].phase.Finished?
    ensures var s', t := Next(s, Abort(x)), s.exchanges[x].request.Ticket();
            && OnlyMoves(s, s', x) && s'.rows == s.rows && s'.spent == s.spent
            && s'.exchanges[x].phase == Finished(Failed(ServerError))
            && s'.locks == (if s.exchanges[x].phase.Locked? || s.exchanges[x].phase.Deleted? then s.locks - {t}
                            else s.locks)
  {
    assert Next(s, Abort(x)) == AbortStep(s, x);
    hide Next;
  }

  /** An exchange waits for a locked row; once it is free it locks it, or finds out that there is none. */
  lemma LockOutcome(s: State, x: nat)
    requires x in s.exchanges && s.exchanges[x].phase.Authenticated?
    ensures var s', t := Next(s, Lock(x)), s.exchanges[x].request.Ticket();
            if t in s.locks then s' == s
            else
              && OnlyMoves(s, s', x) && s'.rows == s.rows
              && s'.exchanges[x].phase == (if t in s.rows then Locked(s.rows[t]) else Finished(Failed(UnknownGrant)))
              && s'.locks == (if t in s.rows then s.locks[t := x] else s.locks)
  {
    if s.exchanges[x].request.Ticket() !in s.locks {
      assert Next(s, Lock(x)) == LockStep(s, x);
    }
    hide Next;
  }

  /** Tokens are answered exactly when the insert of the new refresh token is reported; a lost one stores nothing. */
  lemma PersistOutcome(s: State, x: nat, fate: Fate)
    requires x in s.exchanges && s.exchanges[x].phase.Minted?
    requires s.exchanges[x].request.Ticket() in s.born
    ensures var s', ex := Next(s, Persist(x, fate)), s.exchanges[x];
            var t := Refresh(Hash(ex.phase.refresh));
            var stored := fate != Lost && t !in s.born;
            && OnlyMoves(s, s', x)
            && s'.rows == (if stored then s.rows[t := RefreshRow(ex.request.clientId, ex.phase.row.username,
                                                                 ex.phase.row.resource, s.now + 30 * DAY)]
                           else s.rows)
            && s'.exchanges[x].phase == Finished(if stored && fate == Success
                                                 then Tokens(ex.phase.access, ex.phase.refresh)
                                                 else Failed(ServerError))
            && s'.locks == s.locks
  {
    assert Next(s, Persist(x, fate)) == PersistStep(s, x, fate);
    hide Next;
    PersistMoves(s, x, fate);
  }

  lemma PersistMoves(s: State, x: nat, fate: Fate)
    requires x in s.exchanges && s.exchanges[x].phase.Minted?
    ensures OnlyMoves(s, PersistStep(s, x, fate), x)
  {
  }

  /** An authorization stores its code exactly when all checks pass for a logged-in user and the insert took effect. */
  lemma AuthorizeOutcome(s: State, r: AuthorizeRequest, user: string, code: string, fate: Fate)
    requires Code(code) !in s.born
    ensures var s' := Next(s, Authorize(r, user, code, fate));
            if && r.clientId in s.clients && r.redirectUri in s.clients[r.clientId].redirectUris
               && r.responseType == "code" && r.challenge != Literal("") && r.challengeMethod == "S256"
               && r.resource in {"", s.server.baseUrl + "/mcp"} && user != "" && fate != Lost
            then
              && s'.rows == s.rows[Code(code) := CodeRow(r.clientId, user, r.resource, s.now + 300 * 1_000_000_000,
                                                         r.redirectUri, r.challenge, r.challengeMethod)]
              && s'.exchanges == s.exchanges && s'.locks == s.locks && s'.clients == s.clients && s'.spent == s.spent
              && s'.now == s.now && s'.server == s.server && s'.born.Keys == s.born.Keys + {Code(code)}
            else s' == s
  {
    AuthorizeTable(s.clients, s.server.Resource(), r, user);
    CodeRowExactly(r, user, s.now);
    hide DecideAuthorize, RowFor;
  }

  /** The steps of a client that registers and of a user who authorizes it. */
  function FirstSteps(clientId: string, client: Client, r: AuthorizeRequest, user: string, code: string): seq<Step> {
    [Register(clientId, client), Authorize(r, user, code, Success)]
  }

  /**
   * The protocol is no empty promise: from the start, whoever registers a public client, has a logged-in user authorize
   * it and redeems the code within five minutes with the verifier gets tokens.
   */
  lemma FirstTokens(server: Server, now: int, clientId: string, client: Client, user: string, code: string,
                    verifier: string, refresh: string, uri: string, x: nat, a: nat, b: nat, c: nat)
    requires clientId != "" && client.authMethod == "none" && uri in client.redirectUris
    requires user != "" && code != "" && verifier != "" && a <= 300 * 1_000_000_000
    ensures var r := AuthorizeRequest(clientId, uri, "code", S256(verifier), "S256", "");
            var s := Run(Initial(server, now), FirstSteps(clientId, client, r, user, code), 2);
            var s' := Run(s, SoloSteps(x, CodeRequest(clientId, "", uri, code, verifier), refresh, a, b, c), 11);
            && x in s'.exchanges && s'.exchanges[x].phase.Finished? && s'.exchanges[x].phase.outcome.Tokens?
            && AccessFor(s'.exchanges[x].phase.outcome.access, server, user, now + a + b)
  {
    var r := AuthorizeRequest(clientId, uri, "code", S256(verifier), "S256", "");
    FirstState(server, now, clientId, client, r, user, code);
    hide Next, Run, SoloSteps, FirstSteps, Tables;
    ProperCodeSucceeds(Run(Initial(server, now), FirstSteps(clientId, client, r, user, code), 2), x, clientId, "", uri,
                       code, verifier, refresh, a, b, c);
  }

  lemma FirstState(server: Server, now: int, clientId: string, client: Client, r: AuthorizeRequest, user: string,
                   code: string)
    requires r.clientId == clientId && r.redirectUri in client.redirectUris && r.responseType == "code"
    requires r.challenge != Literal("") && r.challengeMethod == "S256" && r.resource == "" && user != ""
    ensures var s := Run(Initial(server, now), FirstSteps(clientId, client, r, user, code), 2);
            && s.rows == map[Code(code) := CodeRow(clientId, user, "", now + 300 * 1_000_000_000, r.redirectUri,
                                                   r.challenge, "S256")]
            && s.clients == map[clientId := client] && s.exchanges == map[] && s.locks == map[]
            && s.now == now && s.server == server && s.born.Keys == {Code(code)} && Tables(s)
  {
    var s0, steps := Initial(server, now), FirstSteps(clientId, client, r, user, code);
    hide Tables, Linear, RootsBorn, ReturnedOnce, DecideAuthorize, Safe;
    InitialIsSafe(server, now);
    RunIsSafe(s0, steps, 2);
    RunTwo(s0, steps, 0);
    SafeTables(Run(s0, steps, 2));
    hide Run, Tables, Safe;
    assert Next(s0, Register(clientId, client)) == s0.(clients := map[clientId := client]);
    hide Next;
    AuthorizeOutcome(s0.(clients := map[clientId := client]), r, user, code, Success);
  }

  lemma SafeTables(s: State)
    requires Safe(s)
    ensures Tables(s)
  {
    hide Tables;
  }

  // ----- Access tokens ----------------------------------------------------------------------------------------------

  /** The word stands at this place of the text, with a blank or the text's end on either side. */
  predicate WordAt(text: string, word: string, i: nat) {
    && i + |word| <= |text| && text[i..i + |word|] == word
    && (i == 0 || M.Blank(text[i - 1])) && (i + |word| == |text| || M.Blank(text[i + |word|]))
  }

  ghost predicate HasWord(text: string, word: string) {
    exists i: nat :: WordAt(text, word, i)
  }

  ghost predicate Unbroken(word: string) {
    forall i :: 0 <= i < |word| ==> !M.Blank(word[i])
  }

  lemma OneWord(text: string, word: string)
    requires Unbroken(text) && word != ""
    ensures HasWord(text, word) <==> text == word
  {
    hide M.Blank;
    if HasWord(text, word) {
      var i: nat :| WordAt(text, word, i);
    }
    if text == word {
      assert WordAt(text, word, 0);
    }
  }

  /** A blank separates the words before it from those after it. */
  lemma BlankSeparates(first: string, blank: char, rest: string, word: string)
    requires Unbroken(first) && M.Blank(blank) && Unbroken(word) && word != ""
    ensures HasWord(first + [blank] + rest, word) <==> first == word || HasWord(rest, word)
  {
    hide M.Blank, WordAt, Unbroken;
    var text, n := first + [blank] + rest, |first|;
    assert text[n] == blank && text[..n] == first && text[n + 1..] == rest;
    OneWord(first, word);
    if HasWord(text, word) {
      var i: nat :| WordAt(text, word, i);
      WordBefore(text, word, i, n);
      if i > n {
        WordAfter(text, word, i, n);
      }
    }
    if HasWord(first, word) {
      var i: nat :| WordAt(first, word, i);
      WordWithin(first, word, i);
      WordBefore(text, word, i, n);
    }
    if HasWord(rest, word) {
      var i: nat :| WordAt(rest, word, i);
      WordAfter(text, word, n + 1 + i, n);
    }
  }

  lemma WordWithin(text: string, word: string, i: nat)
    requires WordAt(text, word, i)
    ensures i <= |text|
  {
  }

  lemma WordBefore(text: string, word: string, i: nat, n: nat)
    requires n < |text| && M.Blank(text[n]) && Unbroken(word) && word != ""
    ensures i <= n ==> (WordAt(text, word, i) <==> WordAt(text[..n], word, i))
  {
    hide M.Blank;
    if i <= n < i + |word| <= |text| {
      assert text[n] == text[i..i + |word|][n - i];
      assert text[i..i + |word|] != word;
    }
    if i + |word| <= n {
      assert text[i..i + |word|] == text[..n][i..i + |word|];
    }
  }

  lemma WordAfter(text: string, word: string, i: nat, n: nat)
    requires n < i && n < |text| && M.Blank(text[n]) && word != ""
    ensures WordAt(text, word, i) <==> WordAt(text[n + 1..], word, i - n - 1)
  {
    hide M.Blank;
    if i + |word| <= |text| {
      assert text[i..i + |word|] == text[n + 1..][i - n - 1..i - n - 1 + |word|];
    }
  }

  lemma {:induction false} FieldsAreWords(text: string, field: string, word: string)
    requires Unbroken(field) && Unbroken(word) && word != ""
    ensures word in FieldsFrom(text, field) <==> HasWord(field + text, word)
    decreases |text|
  {
    hide M.Blank, KdfParams.IsSpace;
    if text == "" {
      OneWord(field, word);
      assert field + text == field;
    } else {
      M.SpacesAreBlanks(text[0]);
      if KdfParams.IsSpace(text[0]) {
        FieldsAreWords(text[1..], "", word);
        BlankSeparates(field, text[0], text[1..], word);
        assert "" + text[1..] == text[1..];
        assert field + text == field + [text[0]] + text[1..];
      } else {
        FieldsAreWords(text[1..], field + [text[0]], word);
        assert field + text == field + [text[0]] + text[1..];
      }
    }
  }

  /**
   * A token stands for a user exactly when it is signed with this server's secret by an HMAC, has not reached its
   * expiry second if it has one, names the scope "mcp" among its words and this server among its audiences, and has
   * the user for its subject.
   */
  lemma VerifiedExactly(server: Server, token: Jwt, now: int, user: string)
    ensures VerifyAccessToken(server, token, now) == Some(user) <==>
            && token.Signed? && token.hmac && token.secret == server.secret
            && (token.claims.exp.Some? ==> now < token.claims.exp.value * 1_000_000_000)
            && token.claims.scope.Some? && HasWord(token.claims.scope.value, "mcp")
            && (match token.claims.aud
                case NoAudience => false
                case OneAudience(name) => name == server.baseUrl + "/mcp"
                case Audiences(names) => Some(server.baseUrl + "/mcp") in names)
            && token.claims.sub == Some(user) && user != ""
  {
    ScopeIsUnbroken();
    if token.Signed? {
      var scope := OrEmpty(token.claims.scope);
      FieldsAreWords(scope, "", "mcp");
      OneWord("", "mcp");
      assert "" + scope == scope;
    }
    hide FieldsFrom, HasWord;
  }

  lemma ScopeIsUnbroken()
    ensures Unbroken("mcp") && Unbroken("")
  {
    forall i | 0 <= i < 3
      ensures !M.Blank("mcp"[i])
    {
      M.SpacesAreBlanks("mcp"[i]);
    }
  }
}
