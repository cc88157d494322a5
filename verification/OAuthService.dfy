/** The authorization server one request at a time: its tables, its consuming transactions and the two exchanges. */
module OAuthService {
  import opened Wrappers
  import opened OAuthTokens
  import opened OAuthProtocol
  import opened OAuthSafety

  /** The clock readings of one exchange: at the checks, at the minting and at the insert of the new refresh token. */
  datatype Readings = Readings(check: int, mint: int, persist: int)

  /** What an undisturbed exchange does to the tables and answers, given the new refresh token. */
  function Redeemed(server: Server, clients: map<string, Client>, rows: map<Ticket, Row>, r: TokenRequest,
                    at: Readings, refresh: string):
    (map<Ticket, Row>, Outcome)
  {
    var t := r.Ticket();
    match AuthenticateClient(clients, r.clientId, r.secret)
    case Some(e) => (rows, Failed(e))
    case None =>
      if !r.Complete() then (rows, Failed(InvalidRequest))
      else if t !in rows then (rows, Failed(UnknownGrant))
      else
        match CheckGrant(rows[t], r, at.check)
        case Some(e) => (rows - {t}, Failed(e))
        case None =>
          ((rows - {t})[Refresh(Hash(refresh)) := NextRow(rows[t], r.clientId, at.persist)],
           Tokens(GenerateAccessToken(server, rows[t].username, at.mint), refresh))
  }

  predicate Stored(codes: map<string, Row>, tokens: map<Digest, Row>, t: Ticket) {
    if t.Code? then t.code in codes else t.hash in tokens
  }

  function RowAt(codes: map<string, Row>, tokens: map<Digest, Row>, t: Ticket): Row
    requires Stored(codes, tokens, t)
  {
    if t.Code? then codes[t.code] else tokens[t.hash]
  }

  /** Both tables, keyed by what redeems a row. */
  function Table(codes: map<string, Row>, tokens: map<Digest, Row>): (rows: map<Ticket, Row>)
    ensures forall t :: t in rows <==> Stored(codes, tokens, t)
    ensures forall t :: t in rows ==> rows[t] == RowAt(codes, tokens, t)
  {
    var codeKeys, tokenKeys := set c | c in codes :: Code(c), set h | h in tokens :: Refresh(h);
    map t | t in codeKeys + tokenKeys :: RowAt(codes, tokens, t)
  }

  lemma CodeTable(codes: map<string, Row>, tokens: map<Digest, Row>, code: string, row: Row)
    ensures Table(codes[code := row], tokens) == Table(codes, tokens)[Code(code) := row]
    ensures Table(codes - {code}, tokens) == Table(codes, tokens) - {Code(code)}
  {
    hide Table;
  }

  lemma TokenTable(codes: map<string, Row>, tokens: map<Digest, Row>, hash: Digest, row: Row)
    ensures Table(codes, tokens[hash := row]) == Table(codes, tokens)[Refresh(hash) := row]
    ensures Table(codes, tokens - {hash}) == Table(codes, tokens) - {Refresh(hash)}
  {
    hide Table;
  }

  // ----- The tables -------------------------------------------------------------------------------------------

  class OAuthStore {
    var clients: map<string, Client>
    var codes: map<string, Row>
    var refreshTokens: map<Digest, Row>
    const reliable: bool

    constructor (reliable: bool)
      ensures clients == map[] && codes == map[] && refreshTokens == map[] && this.reliable == reliable
      ensures Valid()
    {
      clients, codes, refreshTokens := map[], map[], map[];
      this.reliable := reliable;
    }

    ghost predicate Valid()
      reads this
    {
      && (forall c :: c in codes ==> codes[c].CodeRow?)
      && (forall h :: h in refreshTokens ==> refreshTokens[h].RefreshRow?)
    }

    ghost function View(): map<Ticket, Row>
      reads this
    {
      Table(codes, refreshTokens)
    }

    /** Ok(None) when there is no such client. */
    method GetOAuthClient(clientId: string) returns (r: Result<Option<Client>, OAuthError>)
      ensures r.Ok? ==> r.value == if clientId in clients then Some(clients[clientId]) else None
      ensures r.Err? ==> r.error == ServerError && !reliable
    {
      var fate := Decide(reliable);
      if fate != Success {
        return Err(ServerError);
      }
      r := Ok(if clientId in clients then Some(clients[clientId]) else None);
    }

    method CreateAuthCode(code: string, row: Row) returns (ok: bool)
      requires Valid() && row.CodeRow?
      modifies this`codes
      ensures Valid() && View() in {old(View()), old(View())[Code(code) := row]}
      ensures ok ==> View() == old(View())[Code(code) := row] && Code(code) !in old(View())
      ensures reliable && Code(code) !in old(View()) ==> ok
    {
      hide Table;
      CodeTable(codes, refreshTokens, code, row);
      var fate := Decide(reliable);
      if fate == Lost || code in codes {
        return false;
      }
      codes := codes[code := row];
      ok := fate == Success;
    }

    /** One transaction: read the row for update, delete it, commit. A row is returned only when it is gone. */
    method ConsumeAuthCode(code: string) returns (r: Result<Option<Row>, OAuthError>)
      requires Valid()
      modifies this`codes
      ensures Valid()
      ensures r == Ok(None) ==> Code(code) !in old(View()) && View() == old(View())
      ensures r.Ok? && r.value.Some? ==>
                && Code(code) in old(View()) && r.value.value == old(View())[Code(code)]
                && View() == old(View()) - {Code(code)}
      ensures r.Ok? && r.value.Some? ==> r.value.value.CodeRow?
      ensures r.Err? ==> r.error == ServerError && !reliable && View() in {old(View()), old(View()) - {Code(code)}}
    {
      hide Table;
      var fate := Decide(reliable);
      if fate != Success {
        return Err(ServerError);
      }
      if code !in codes {
        return Ok(None);
      }
      var row := codes[code];
      CodeTable(codes, refreshTokens, code, row);
      var txCodes := codes - {code};
      fate := Decide(reliable);
      if fate == Lost {
        return Err(ServerError);
      }
      codes := txCodes;
      r := if fate == Success then Ok(Some(row)) else Err(ServerError);
    }

    method CreateRefreshToken(hash: Digest, row: Row) returns (ok: bool)
      requires Valid() && row.RefreshRow?
      modifies this`refreshTokens
      ensures Valid() && View() in {old(View()), old(View())[Refresh(hash) := row]}
      ensures ok ==> View() == old(View())[Refresh(hash) := row] && Refresh(hash) !in old(View())
      ensures reliable && Refresh(hash) !in old(View()) ==> ok
    {
      hide Table;
      TokenTable(codes, refreshTokens, hash, row);
      var fate := Decide(reliable);
      if fate == Lost || hash in refreshTokens {
        return false;
      }
      refreshTokens := refreshTokens[hash := row];
      ok := fate == Success;
    }

    method ConsumeRefreshToken(hash: Digest) returns (r: Result<Option<Row>, OAuthError>)
      requires Valid()
      modifies this`refreshTokens
      ensures Valid()
      ensures r == Ok(None) ==> Refresh(hash) !in old(View()) && View() == old(View())
      ensures r.Ok? && r.value.Some? ==>
                && Refresh(hash) in old(View()) && r.value.value == old(View())[Refresh(hash)]
                && View() == old(View()) - {Refresh(hash)}
      ensures r.Ok? && r.value.Some? ==> r.value.value.RefreshRow?
      ensures r.Err? ==> r.error == ServerError && !reliable && View() in {old(View()), old(View()) - {Refresh(hash)}}
    {
      hide Table;
      var fate := Decide(reliable);
      if fate != Success {
        return Err(ServerError);
      }
      if hash !in refreshTokens {
        return Ok(None);
      }
      var row := refreshTokens[hash];
      TokenTable(codes, refreshTokens, hash, row);
      var txTokens := refreshTokens - {hash};
      fate := Decide(reliable);
      if fate == Lost {
        return Err(ServerError);
      }
      refreshTokens := txTokens;
      r := if fate == Success then Ok(Some(row)) else Err(ServerError);
    }
  }

  // ----- The service ------------------------------------------------------------------------------------------

  /** The exchange did what it does undisturbed, or failed on the way with nothing but its own grant touched. */
  ghost predicate Exchanged(server: Server, clients: map<string, Client>, rows: map<Ticket, Row>, r: TokenRequest,
                            at: Readings, refresh: string,
                            rows': map<Ticket, Row>, outcome: Outcome, reliable: bool)
  {
    var (planned, answer) := Redeemed(server, clients, rows, r, at, refresh);
    || (rows' == planned && outcome == answer)
    || (outcome == Failed(ServerError) && !(reliable && Refresh(Hash(refresh)) !in rows)
        && rows' in {rows, rows - {r.Ticket()}, planned})
  }

  class AuthorizationServer {
    const store: OAuthStore
    const server: Server

    constructor (store: OAuthStore, server: Server)
      ensures this.store == store && this.server == server
    {
      this.store, this.server := store, server;
    }

    /** The authorization endpoint: a code is stored for the session's user only after every check. */
    method Authorize(r: AuthorizeRequest, user: string, now: int, code: string)
      returns (decision: Result<AuthorizeDecision, OAuthError>, issued: Option<string>)
      requires store.Valid()
      modifies store`codes
      ensures store.Valid()
      ensures decision.Ok? ==> decision.value == DecideAuthorize(store.clients, server.Resource(), r, user)
      ensures decision.Err? ==> !store.reliable && issued.None?
      ensures issued.Some? ==>
                && decision == Ok(IssueTo(user)) && issued.value == code
                && Code(code) !in old(store.View())
                && store.View() == old(store.View())[Code(code) := RowFor(r, user, now)]
      ensures decision != Ok(IssueTo(user)) ==> store.View() == old(store.View())
      ensures store.View() in {old(store.View()), old(store.View())[Code(code) := RowFor(r, user, now)]}
      ensures store.reliable && Code(code) !in old(store.View()) && decision == Ok(IssueTo(user)) ==> issued.Some?
    {
      issued := None;
      var client := store.GetOAuthClient(r.clientId);
      if client.Err? {
        return Err(client.error), None;
      }
      decision := Ok(DecideAuthorize(store.clients, server.Resource(), r, user));
      if client.value.None? {
        return Ok(BadClient), None;
      }
      if !client.value.value.AllowsRedirectUri(r.redirectUri) {
        return Ok(BadRedirectUri), None;
      }
      if r.responseType != "code" {
        return Ok(UnsupportedResponseType), None;
      }
      if r.challenge == Literal("") {
        return Ok(ChallengeRequired), None;
      }
      if r.challengeMethod != "S256" {
        return Ok(MethodNotS256), None;
      }
      if r.resource != "" && r.resource != server.Resource() {
        return Ok(WrongTarget), None;
      }
      if user == "" {
        return Ok(LoginFirst), None;
      }
      issued := IssueAuthorizationCode(r, user, now, code);
    }

    method IssueAuthorizationCode(r: AuthorizeRequest, username: string, now: int, code: string)
      returns (issued: Option<string>)
      requires store.Valid()
      modifies store`codes
      ensures store.Valid()
      ensures store.View() in {old(store.View()), old(store.View())[Code(code) := RowFor(r, username, now)]}
      ensures issued.Some? ==> issued.value == code && Code(code) !in old(store.View())
                               && store.View() == old(store.View())[Code(code) := RowFor(r, username, now)]
      ensures store.reliable && Code(code) !in old(store.View()) ==> issued.Some?
    {
      var row := CodeRow(r.clientId, username, r.resource, now + CODE_TTL, r.redirectUri, r.challenge,
                         r.challengeMethod);
      var ok := store.CreateAuthCode(code, row);
      issued := if ok then Some(code) else None;
    }

    method Authenticate(clientId: string, secret: string) returns (r: Result<Client, OAuthError>)
      ensures match r
              case Ok(client) =>
                && AuthenticateClient(store.clients, clientId, secret).None?
                && clientId in store.clients && client == store.clients[clientId]
              case Err(e) =>
                AuthenticateClient(store.clients, clientId, secret) == Some(e) || (e == ServerError && !store.reliable)
    {
      if clientId == "" {
        return Err(MissingClientId);
      }
      var client := store.GetOAuthClient(clientId);
      if client.Err? {
        return Err(client.error);
      }
      if client.value.None? {
        return Err(UnknownClient);
      }
      var c := client.value.value;
      if !c.IsPublic() {
        if secret == "" {
          return Err(SecretRequired);
        }
        if Some(Hash(secret)) != c.secretHash {
          return Err(WrongSecret);
        }
      }
      r := Ok(c);
    }

    /** Redeems a code: the row goes first, the checks come after. */
    method ExchangeAuthorizationCode(clientId: string, secret: string, redirectUri: string, code: string,
                                     verifier: string, at: Readings, refresh: string)
      returns (outcome: Outcome)
      requires store.Valid()
      modifies store`codes, store`refreshTokens
      ensures store.Valid()
      ensures Exchanged(server, store.clients, old(store.View()),
                        CodeRequest(clientId, secret, redirectUri, code, verifier), at, refresh,
                        store.View(), outcome, store.reliable)
    {
      var client := Authenticate(clientId, secret);
      if client.Err? {
        return Failed(client.error);
      }
      if code == "" || verifier == "" {
        return Failed(InvalidRequest);
      }
      var consumed := store.ConsumeAuthCode(code);
      if consumed.Err? {
        return Failed(consumed.error);
      }
      if consumed.value.None? {
        return Failed(UnknownGrant);
      }
      var ac := consumed.value.value;
      if at.check > ac.expiresAt {
        return Failed(ExpiredGrant);
      }
      if ac.clientId != clientId {
        return Failed(OtherClientsGrant);
      }
      if ac.redirectUri != redirectUri {
        return Failed(RedirectMismatch);
      }
      if !VerifyPkce(verifier, ac.challenge, ac.challengeMethod) {
        return Failed(PkceFailed);
      }
      outcome := IssueTokens(clientId, ac, at, refresh);
    }

    method ExchangeRefreshToken(clientId: string, secret: string, token: string, at: Readings, refresh: string)
      returns (outcome: Outcome)
      requires store.Valid()
      modifies store`codes, store`refreshTokens
      ensures store.Valid()
      ensures Exchanged(server, store.clients, old(store.View()), RefreshRequest(clientId, secret, token), at, refresh,
                        store.View(), outcome, store.reliable)
    {
      var client := Authenticate(clientId, secret);
      if client.Err? {
        return Failed(client.error);
      }
      if token == "" {
        return Failed(InvalidRequest);
      }
      var consumed := store.ConsumeRefreshToken(Hash(token));
      if consumed.Err? {
        return Failed(consumed.error);
      }
      if consumed.value.None? {
        return Failed(UnknownGrant);
      }
      var rt := consumed.value.value;
      if at.check > rt.expiresAt {
        return Failed(ExpiredGrant);
      }
      if rt.clientId != clientId {
        return Failed(OtherClientsGrant);
      }
      outcome := IssueTokens(clientId, rt, at, refresh);
    }

    /** The token endpoint: dispatches on the grant type; None for one it does not support. */
    method Token(grantType: string, clientId: string, secret: string, redirectUri: string, code: string,
                 verifier: string, token: string,
                 at: Readings, refresh: string)
      returns (outcome: Option<Outcome>)
      requires store.Valid()
      modifies store`codes, store`refreshTokens
      ensures store.Valid()
      ensures outcome.None? <==> grantType != "authorization_code" && grantType != "refresh_token"
      ensures outcome.None? ==> store.View() == old(store.View())
      ensures outcome.Some? ==>
                Exchanged(server, store.clients, old(store.View()),
                          if grantType == "refresh_token" then RefreshRequest(clientId, secret, token)
                          else CodeRequest(clientId, secret, redirectUri, code, verifier),
                          at, refresh, store.View(), outcome.value, store.reliable)
    {
      if grantType == "authorization_code" {
        var o := ExchangeAuthorizationCode(clientId, secret, redirectUri, code, verifier, at, refresh);
        outcome := Some(o);
      } else if grantType == "refresh_token" {
        var o := ExchangeRefreshToken(clientId, secret, token, at, refresh);
        outcome := Some(o);
      } else {
        outcome := None;
      }
    }

    /** Mints the access token, then stores the rotated refresh token; tokens are returned only when it is stored. */
    method IssueTokens(clientId: string, row: Row, at: Readings, refresh: string) returns (outcome: Outcome)
      requires store.Valid()
      modifies store`refreshTokens
      ensures store.Valid()
      ensures var rows' := old(store.View())[Refresh(Hash(refresh)) := NextRow(row, clientId, at.persist)];
              || (outcome == Tokens(GenerateAccessToken(server, row.username, at.mint), refresh)
                  && store.View() == rows')
              || (outcome == Failed(ServerError) && store.View() in {old(store.View()), rows'}
                  && !(store.reliable && Refresh(Hash(refresh)) !in old(store.View())))
    {
      var accessToken := GenerateAccessToken(server, row.username, at.mint);
      var rt := RefreshRow(clientId, row.username, row.resource, at.persist + REFRESH_TTL);
      var ok := store.CreateRefreshToken(Hash(refresh), rt);
      outcome := if ok then Tokens(accessToken, refresh) else Failed(ServerError);
    }
  }

  // ----- One exchange of many ---------------------------------------------------------------------------------

  /** The steps of one exchange that nothing disturbs, with the clock moving between its readings. */
  function SoloSteps(x: nat, r: TokenRequest, refresh: string, toCheck: nat, toMint: nat, toPersist: nat): seq<Step> {
    [Begin(x, r), Authenticate(x), Lock(x), Delete(x), Commit(x, Success), Tick(toCheck), Check(x),
     Tick(toMint), Mint(x, refresh), Tick(toPersist), Persist(x, Success)]
  }

  function ReadingsFrom(now: int, toCheck: nat, toMint: nat, toPersist: nat): Readings {
    Readings(now + toCheck, now + toCheck + toMint, now + toCheck + toMint + toPersist)
  }

  /** Once an exchange is finished, only the clock moves in the rest of its steps. */
  ghost predicate Settled(s: State, x: nat, rows: map<Ticket, Row>, outcome: Outcome) {
    x in s.exchanges && s.exchanges[x].phase == Finished(outcome) && s.rows == rows
  }

  lemma SettledStays(s: State, x: nat, rows: map<Ticket, Row>, outcome: Outcome, step: Step)
    requires Settled(s, x, rows, outcome)
    requires step.Tick? || (!step.Register? && !step.Authorize? && !step.Begin? && step.x == x)
    ensures Settled(Next(s, step), x, rows, outcome)
  {
  }

  lemma {:induction false} SettledToTheEnd(s: State, x: nat, r: TokenRequest, refresh: string, a: nat, b: nat, c: nat,
                                           rows: map<Ticket, Row>, outcome: Outcome, k: nat, l: nat)
    requires 1 <= k <= l <= |SoloSteps(x, r, refresh, a, b, c)|
    requires Settled(Run(s, SoloSteps(x, r, refresh, a, b, c), k), x, rows, outcome)
    ensures Settled(Run(s, SoloSteps(x, r, refresh, a, b, c), l), x, rows, outcome)
  {
    if k < l {
      SettledToTheEnd(s, x, r, refresh, a, b, c, rows, outcome, k, l - 1);
      SettledStays(Run(s, SoloSteps(x, r, refresh, a, b, c), l - 1), x, rows, outcome,
                   SoloSteps(x, r, refresh, a, b, c)[l - 1]);
    }
  }

  /** The exchange is at this phase; the tables it works on are these. */
  ghost predicate Reaches(s: State, s': State, x: nat, r: TokenRequest, phase: Phase, rows: map<Ticket, Row>,
                          now: int) {
    && x in s'.exchanges && s'.exchanges[x] == Exchange(r, phase) && s'.rows == rows && s'.now == now
    && s'.server == s.server && s'.clients == s.clients && s'.born == s.born
  }

  lemma SoloStart(s: State, x: nat, r: TokenRequest)
    requires x !in s.exchanges
    ensures var s' := Next(Next(s, Begin(x, r)), Authenticate(x));
            Reaches(s, s', x, r, AuthenticatedPhase(s.clients, r), s.rows, s.now) && s'.locks == s.locks
  {
    hide AuthenticatedPhase;
    var s1 := Next(s, Begin(x, r));
    assert s1 == s.(exchanges := s.exchanges[x := Exchange(r, Received)]);
  }

  lemma SoloLock(s: State, s2: State, x: nat, r: TokenRequest)
    requires Reaches(s, s2, x, r, Authenticated, s.rows, s.now) && r.Ticket() !in s2.locks
    ensures Reaches(s, Next(s2, Lock(x)), x, r,
                    if r.Ticket() in s.rows then Locked(s.rows[r.Ticket()]) else Finished(Failed(UnknownGrant)),
                    s.rows, s.now)
  {
  }

  lemma SoloConsume(s: State, s3: State, x: nat, r: TokenRequest, row: Row)
    requires Reaches(s, s3, x, r, Locked(row), s.rows, s.now)
    ensures Reaches(s, Next(Next(s3, Delete(x)), Commit(x, Success)), x, r, Consumed(row), s.rows - {r.Ticket()}, s.now)
  {
    var s4 := Next(s3, Delete(x));
    assert Reaches(s, s4, x, r, Deleted(row), s.rows, s.now);
    SoloCommit(s, s4, x, r, row);
  }

  lemma SoloCommit(s: State, s4: State, x: nat, r: TokenRequest, row: Row)
    requires Reaches(s, s4, x, r, Deleted(row), s.rows, s.now)
    ensures Reaches(s, Next(s4, Commit(x, Success)), x, r, Consumed(row), s.rows - {r.Ticket()}, s.now)
  {
  }

  lemma SoloCheck(s: State, s5: State, x: nat, r: TokenRequest, row: Row, rows: map<Ticket, Row>, now: int, a: nat)
    requires Reaches(s, s5, x, r, Consumed(row), rows, now)
    ensures Reaches(s, Next(Next(s5, Tick(a)), Check(x)), x, r, CheckedPhase(row, r, now + a), rows, now + a)
  {
  }

  lemma SoloIssue(s: State, s7: State, x: nat, r: TokenRequest, row: Row, rows: map<Ticket, Row>, now: int,
                  refresh: string, b: nat, c: nat)
    requires Reaches(s, s7, x, r, Checked(row), rows, now) && Refresh(Hash(refresh)) !in s.born && r.Ticket() in s.born
    ensures Settled(Next(Next(Next(Next(s7, Tick(b)), Mint(x, refresh)), Tick(c)), Persist(x, Success)), x,
                    rows[Refresh(Hash(refresh)) := NextRow(row, r.clientId, now + b + c)],
                    Tokens(GenerateAccessToken(s.server, row.username, now + b), refresh))
  {
    hide GenerateAccessToken;
    var access := GenerateAccessToken(s.server, row.username, now + b);
    var s10 := Next(Next(Next(s7, Tick(b)), Mint(x, refresh)), Tick(c));
    assert Reaches(s, s10, x, r, Minted(row, access, refresh), rows, now + b + c);
    SoloPersist(s, s10, x, r, row, rows, now + b + c, access, refresh);
  }

  lemma SoloPersist(s: State, s10: State, x: nat, r: TokenRequest, row: Row, rows: map<Ticket, Row>, now: int,
                    access: Jwt, refresh: string)
    requires Reaches(s, s10, x, r, Minted(row, access, refresh), rows, now)
    requires Refresh(Hash(refresh)) !in s.born && r.Ticket() in s.born
    ensures Settled(Next(s10, Persist(x, Success)), x, rows[Refresh(Hash(refresh)) := NextRow(row, r.clientId, now)],
                    Tokens(access, refresh))
  {
  }

  lemma RunUnfolds(s: State, steps: seq<Step>, k: nat)
    requires k < |steps|
    ensures Run(s, steps, 0) == s && Run(s, steps, k + 1) == Next(Run(s, steps, k), steps[k])
  {
  }

  lemma RunTwo(s: State, steps: seq<Step>, k: nat)
    requires k + 1 < |steps|
    ensures Run(s, steps, 0) == s && Run(s, steps, k + 2) == Next(Next(Run(s, steps, k), steps[k]), steps[k + 1])
  {
    RunUnfolds(s, steps, k + 1);
    RunUnfolds(s, steps, k);
  }

  /**
   * An exchange that runs undisturbed among any others does to the tables and answers exactly what the sequential
   * service does, so the protocol lets every proper request through and turns down every other one as the code does.
   */
  lemma SoloExchange(s: State, x: nat, r: TokenRequest, refresh: string, a: nat, b: nat, c: nat)
    requires Tables(s) && x !in s.exchanges && r.Ticket() !in s.locks && Refresh(Hash(refresh)) !in s.born
    ensures var (rows', outcome) := Redeemed(s.server, s.clients, s.rows, r, ReadingsFrom(s.now, a, b, c), refresh);
            Settled(Run(s, SoloSteps(x, r, refresh, a, b, c), 11), x, rows', outcome)
  {
    var steps := SoloSteps(x, r, refresh, a, b, c);
    var (rows', outcome) := Redeemed(s.server, s.clients, s.rows, r, ReadingsFrom(s.now, a, b, c), refresh);
    var ended := SoloStages(s, x, r, refresh, a, b, c);
    SettledToTheEnd(s, x, r, refresh, a, b, c, rows', outcome, ended, 11);
  }

  /** The step after which the exchange is settled. */
  lemma SoloStages(s: State, x: nat, r: TokenRequest, refresh: string, a: nat, b: nat, c: nat) returns (ended: nat)
    requires Tables(s) && x !in s.exchanges && r.Ticket() !in s.locks && Refresh(Hash(refresh)) !in s.born
    ensures 2 <= ended <= 11
    ensures var (rows', outcome) := Redeemed(s.server, s.clients, s.rows, r, ReadingsFrom(s.now, a, b, c), refresh);
            Settled(Run(s, SoloSteps(x, r, refresh, a, b, c), ended), x, rows', outcome)
  {
    hide Next, Run, CheckGrant, AuthenticateClient;
    var steps, t := SoloSteps(x, r, refresh, a, b, c), r.Ticket();
    RunTwo(s, steps, 0);
    SoloStart(s, x, r);
    if !AuthenticatedPhase(s.clients, r).Authenticated? {
      return 2;
    }
    RunUnfolds(s, steps, 2);
    SoloLock(s, Run(s, steps, 2), x, r);
    if t !in s.rows {
      return 3;
    }
    ended := SoloTransaction(s, x, r, refresh, a, b, c);
  }

  lemma SoloTransaction(s: State, x: nat, r: TokenRequest, refresh: string, a: nat, b: nat, c: nat) returns (ended: nat)
    requires Tables(s) && Refresh(Hash(refresh)) !in s.born && r.Ticket() in s.rows
    requires AuthenticatedPhase(s.clients, r).Authenticated?
    requires Reaches(s, Run(s, SoloSteps(x, r, refresh, a, b, c), 3), x, r, Locked(s.rows[r.Ticket()]), s.rows, s.now)
    ensures 2 <= ended <= 11
    ensures var (rows', outcome) := Redeemed(s.server, s.clients, s.rows, r, ReadingsFrom(s.now, a, b, c), refresh);
            Settled(Run(s, SoloSteps(x, r, refresh, a, b, c), ended), x, rows', outcome)
  {
    hide Next, Run, CheckGrant, AuthenticateClient, GenerateAccessToken, Reaches;
    var steps, t := SoloSteps(x, r, refresh, a, b, c), r.Ticket();
    RunTwo(s, steps, 3);
    SoloConsume(s, Run(s, steps, 3), x, r, s.rows[t]);
    RunTwo(s, steps, 5);
    SoloCheck(s, Run(s, steps, 5), x, r, s.rows[t], s.rows - {t}, s.now, a);
    if !CheckedPhase(s.rows[t], r, s.now + a).Checked? {
      return 7;
    }
    RunTwo(s, steps, 7);
    RunTwo(s, steps, 9);
    SoloIssue(s, Run(s, steps, 7), x, r, s.rows[t], s.rows - {t}, s.now + a, refresh, b, c);
    return 11;
  }
}
