/**
 * The values the authorization server works with. Hashes, PKCE challenges and signed tokens are symbolic terms:
 * equal exactly when made from equal inputs. Times are nanoseconds; stored times keep full precision.
 */
module OAuthTokens {
  import opened Wrappers
  import opened Clock
  import KdfParams

  const SCOPE := "mcp"
  const ACCESS_TTL: Lifetime := 3600 * SECOND
  const CODE_TTL: Lifetime := 5 * 60 * SECOND
  const REFRESH_TTL: Lifetime := 30 * 24 * 3600 * SECOND

  datatype Digest = Hash(text: string)

  datatype Challenge = S256(verifier: string) | Literal(text: string)

  datatype Client = Client(redirectUris: seq<string>, authMethod: string, secretHash: Option<Digest>)
  {
    predicate IsPublic() {
      authMethod == "none" || secretHash.None?
    }

    predicate AllowsRedirectUri(uri: string) {
      uri in redirectUris
    }
  }

  datatype OAuthError =
    | MissingClientId | UnknownClient | SecretRequired | WrongSecret
    | InvalidRequest | UnknownGrant | ExpiredGrant | OtherClientsGrant | RedirectMismatch | PkceFailed
    | ServerError

  /** The two tables of one-time grants, keyed by what redeems a row. */
  datatype Ticket = Code(code: string) | Refresh(hash: Digest)

  datatype Row =
    | CodeRow(clientId: string, username: string, resource: string, expiresAt: int,
              redirectUri: string, challenge: Challenge, challengeMethod: string)
    | RefreshRow(clientId: string, username: string, resource: string, expiresAt: int)

  datatype TokenRequest =
    | CodeRequest(clientId: string, secret: string, redirectUri: string, code: string, verifier: string)
    | RefreshRequest(clientId: string, secret: string, token: string)
  {
    function Ticket(): Ticket {
      if CodeRequest? then Code(code) else Refresh(Hash(token))
    }

    /** Nothing the grant needs is missing. */
    predicate Complete() {
      if CodeRequest? then code != "" && verifier != "" else token != ""
    }
  }

  // ----- Clients ----------------------------------------------------------------------------------------------

  /** The checks on the caller, in the order they are made. */
  function AuthenticateClient(clients: map<string, Client>, clientId: string,
                              secret: string): (refusal: Option<OAuthError>)
    ensures refusal.None? <==>
              && clientId != "" && clientId in clients
              && (clients[clientId].IsPublic() || (secret != "" && clients[clientId].secretHash == Some(Hash(secret))))
  {
    if clientId == "" then Some(MissingClientId)
    else if clientId !in clients then Some(UnknownClient)
    else if clients[clientId].IsPublic() then None
    else if secret == "" then Some(SecretRequired)
    else if Some(Hash(secret)) != clients[clientId].secretHash then Some(WrongSecret)
    else None
  }

  // ----- Authorization requests -------------------------------------------------------------------------------

  datatype AuthorizeRequest = AuthorizeRequest(
    clientId: string, redirectUri: string, responseType: string, challenge: Challenge, challengeMethod: string,
    resource: string)

  datatype AuthorizeDecision =
    | BadClient | BadRedirectUri                          // answered directly
    | UnsupportedResponseType | ChallengeRequired | MethodNotS256 | WrongTarget  // answered at the redirect URI
    | LoginFirst
    | IssueTo(username: string)

  /** The validation order of the authorization endpoint; `user` is the web session's user, if there is one. */
  function DecideAuthorize(clients: map<string, Client>, resource: string, r: AuthorizeRequest,
                           user: string): (d: AuthorizeDecision)
    ensures d.IssueTo? <==>
              && r.clientId in clients && r.redirectUri in clients[r.clientId].redirectUris && r.responseType == "code"
              && r.challenge != Literal("") && r.challengeMethod == "S256" && r.resource in {"", resource} && user != ""
    ensures d.IssueTo? ==> d.username == user
    ensures !d.BadClient? && !d.BadRedirectUri? ==>
              r.clientId in clients && r.redirectUri in clients[r.clientId].redirectUris
  {
    if r.clientId !in clients then BadClient
    else if !clients[r.clientId].AllowsRedirectUri(r.redirectUri) then BadRedirectUri
    else if r.responseType != "code" then UnsupportedResponseType
    else if r.challenge == Literal("") then ChallengeRequired
    else if r.challengeMethod != "S256" then MethodNotS256
    else if r.resource != "" && r.resource != resource then WrongTarget
    else if user == "" then LoginFirst
    else IssueTo(user)
  }

  // ----- Grants -----------------------------------------------------------------------------------------------

  predicate VerifyPkce(verifier: string, challenge: Challenge, challengeMethod: string) {
    challengeMethod == "S256" && challenge == S256(verifier)
  }

  /** Why a consumed row does not grant the request, in the order of the checks. */
  function CheckGrant(row: Row, r: TokenRequest, now: int): (refusal: Option<OAuthError>)
    ensures refusal.None? <==>
              && now <= row.expiresAt && row.clientId == r.clientId
              && (row.CodeRow? && r.CodeRequest? ==>
                    && row.redirectUri == r.redirectUri && row.challengeMethod == "S256"
                    && row.challenge == S256(r.verifier))
  {
    if now > row.expiresAt then Some(ExpiredGrant)
    else if row.clientId != r.clientId then Some(OtherClientsGrant)
    else if row.CodeRow? && r.CodeRequest? && row.redirectUri != r.redirectUri then Some(RedirectMismatch)
    else if row.CodeRow? && r.CodeRequest? && !VerifyPkce(r.verifier, row.challenge, row.challengeMethod)
    then Some(PkceFailed)
    else None
  }

  // ----- Access tokens ------------------------------------------------------------------------------------------

  datatype Audience = NoAudience | OneAudience(name: string) | Audiences(names: seq<Option<string>>)

  datatype Claims = Claims(sub: Option<string>, scope: Option<string>, aud: Audience, iss: string, iat: int,
                           exp: Option<int>)

  datatype Jwt = Malformed | Signed(hmac: bool, secret: string, claims: Claims)

  datatype Server = Server(baseUrl: string, secret: string)
  {
    function Resource(): string {
      baseUrl + "/mcp"
    }
  }

  function GenerateAccessToken(server: Server, username: string, now: int): Jwt {
    Signed(true, server.secret,
           Claims(Some(username), Some(SCOPE), OneAudience(server.Resource()), server.baseUrl, Unix(now),
                  Some(Unix(now + ACCESS_TTL))))
  }

  /** The fields of a text, separated by white space. */
  function Fields(text: string): seq<string> {
    FieldsFrom(text, "")
  }

  function FieldsFrom(text: string, field: string): seq<string> {
    var done := if field == "" then [] else [field];
    if text == "" then done
    else if KdfParams.IsSpace(text[0]) then done + FieldsFrom(text[1..], "")
    else FieldsFrom(text[1..], field + [text[0]])
  }

  function OrEmpty(s: Option<string>): string {
    if s.Some? then s.value else ""
  }

  predicate AudienceMatches(aud: Audience, expected: string) {
    match aud
    case NoAudience => false
    case OneAudience(name) => name == expected
    case Audiences(names) => Some(expected) in names
  }

  /** The username an access token stands for at a given time. */
  function VerifyAccessToken(server: Server, token: Jwt, now: int): Option<string> {
    if token.Malformed? || !token.hmac || token.secret != server.secret then None
    else if token.claims.exp.Some? && now >= token.claims.exp.value * SECOND then None
    else if SCOPE !in Fields(OrEmpty(token.claims.scope)) then None
    else if !AudienceMatches(token.claims.aud, server.Resource()) then None
    else if OrEmpty(token.claims.sub) == "" then None
    else token.claims.sub
  }

  lemma ScopeIsOneField()
    ensures Fields(SCOPE) == [SCOPE]
  {
    assert SCOPE[1..] == "cp" && "cp"[1..] == "p" && "p"[1..] == "";
    assert FieldsFrom("", "mcp") == ["mcp"];
    assert "" + "m" == "m" && "m" + "c" == "mc" && "mc" + "p" == "mcp";
    assert FieldsFrom("p", "mc") == ["mcp"];
    assert FieldsFrom("cp", "m") == ["mcp"];
  }

  /**
   * A minted token gives back its user at the server that minted it until its deadline, and at no other server
   * secret, for no other resource, and not from the deadline on.
   */
  lemma MintedTokenVerifies(server: Server, username: string, at: int, verifier: Server, now: int)
    ensures VerifyAccessToken(verifier, GenerateAccessToken(server, username, at), now) ==
            if username != "" && verifier.secret == server.secret && verifier.Resource() == server.Resource()
               && now < Deadline(at, ACCESS_TTL)
            then Some(username) else None
  {
    ScopeIsOneField();
  }
}
