/**
 * Many token exchanges at once, as a transition system. An exchange is a sequence of database statements with
 * anything in between; it can fail or be cut off at any point. Steps that are not enabled change nothing.
 * The fields after `exchanges` only record what happened.
 */
module OAuthProtocol {
  import opened Wrappers
  import opened OAuthTokens

  datatype Outcome = Tokens(access: Jwt, refresh: string) | Failed(error: OAuthError)

  /** How far an exchange has come; `row` is the grant it read. */
  datatype Phase =
    | Received
    | Authenticated
    | Locked(row: Row)                // SELECT ... FOR UPDATE has returned the row
    | Deleted(row: Row)               // DELETE has run; the transaction is open
    | Consumed(row: Row)              // the commit was reported
    | Checked(row: Row)
    | Minted(row: Row, access: Jwt, refresh: string)
    | Finished(outcome: Outcome)

  datatype Exchange = Exchange(request: TokenRequest, phase: Phase)

  /** How a grant came to be: what it says, the code its line started with, and the grant it replaced. */
  datatype Birth = Birth(row: Row, root: string, parent: Option<Ticket>, depth: nat)

  datatype Authorization = Authorization(request: AuthorizeRequest, user: string, at: int)

  /** The request that passed the checks on a grant, and when. */
  datatype Grant = Grant(request: TokenRequest, at: int)

  datatype Response = Response(ticket: Ticket, access: Jwt, refresh: string, at: int)

  datatype State = State(
    server: Server,
    now: int,
    clients: map<string, Client>,
    rows: map<Ticket, Row>,
    locks: map<Ticket, nat>,
    exchanges: map<nat, Exchange>,
    born: map<Ticket, Birth>,
    spent: set<Ticket>,
    returned: seq<Ticket>,
    authorizations: map<string, Authorization>,
    granted: map<Ticket, Grant>,
    responses: seq<Response>)

  datatype Step =
    | Tick(elapsed: nat)
    | Register(clientId: string, client: Client)
    | Authorize(authorize: AuthorizeRequest, user: string, code: string, fate: Fate)
    | Begin(x: nat, request: TokenRequest)
    | Authenticate(x: nat)
    | Lock(x: nat)
    | Delete(x: nat)
    | Commit(x: nat, fate: Fate)
    | Check(x: nat)
    | Mint(x: nat, refresh: string)
    | Persist(x: nat, fate: Fate)
    | Abort(x: nat)

  function Initial(server: Server, now: int): State {
    State(server, now, map[], map[], map[], map[], map[], {}, [], map[], map[], [])
  }

  /** The transaction is open: the exchange holds the lock on its row. */
  predicate InTransaction(phase: Phase) {
    phase.Locked? || phase.Deleted?
  }

  /** The exchange has consumed its grant and may still store a successor. */
  predicate Holding(phase: Phase) {
    phase.Consumed? || phase.Checked? || phase.Minted?
  }

  function At(s: State, x: nat, phase: Phase): State
    requires x in s.exchanges
  {
    s.(exchanges := s.exchanges[x := s.exchanges[x].(phase := phase)])
  }

  function TicketOf(s: State, x: nat): Ticket
    requires x in s.exchanges
  {
    s.exchanges[x].request.Ticket()
  }

  // ----- Authorization ------------------------------------------------------------------------------------------

  function RowFor(r: AuthorizeRequest, username: string, now: int): Row {
    CodeRow(r.clientId, username, r.resource, now + CODE_TTL, r.redirectUri, r.challenge, r.challengeMethod)
  }

  /** The code's row is stored; its line starts. New codes are random: a step that repeats one is not enabled. */
  function AuthorizeStep(s: State, r: AuthorizeRequest, user: string, code: string): State {
    var row := RowFor(r, user, s.now);
    s.(rows := s.rows[Code(code) := row],
       born := s.born[Code(code) := Birth(row, code, None, 0)],
       authorizations := s.authorizations[code := Authorization(r, user, s.now)])
  }

  // ----- Exchanges ----------------------------------------------------------------------------------------------

  function AuthenticatedPhase(clients: map<string, Client>, r: TokenRequest): Phase {
    match AuthenticateClient(clients, r.clientId, r.secret)
    case Some(e) => Finished(Failed(e))
    case None => if r.Complete() then Authenticated else Finished(Failed(InvalidRequest))
  }

  /** SELECT ... FOR UPDATE of a row that nobody has locked. */
  function LockStep(s: State, x: nat): State
    requires x in s.exchanges
  {
    var t := TicketOf(s, x);
    At(s, x, if t in s.rows then Locked(s.rows[t]) else Finished(Failed(UnknownGrant)))
      .(locks := if t in s.rows then s.locks[t := x] else s.locks)
  }

  /** A transaction that does not commit is rolled back; its row stays. */
  function CommitStep(s: State, x: nat, fate: Fate): State
    requires x in s.exchanges && InTransaction(s.exchanges[x].phase)
  {
    var t := TicketOf(s, x);
    At(s, x, if fate == Success then Consumed(s.exchanges[x].phase.row) else Finished(Failed(ServerError)))
      .(locks := s.locks - {t},
        rows := if fate == Lost then s.rows else s.rows - {t},
        spent := if fate == Lost then s.spent else s.spent + {t},
        returned := if fate == Success then s.returned + [t] else s.returned)
  }

  function CheckedPhase(row: Row, r: TokenRequest, now: int): Phase {
    match CheckGrant(row, r, now)
    case Some(e) => Finished(Failed(e))
    case None => Checked(row)
  }

  function CheckStep(s: State, x: nat): State
    requires x in s.exchanges && Holding(s.exchanges[x].phase)
  {
    var ex := s.exchanges[x];
    var phase := CheckedPhase(ex.phase.row, ex.request, s.now);
    At(s, x, phase)
      .(granted := if phase.Checked? then s.granted[TicketOf(s, x) := Grant(ex.request, s.now)] else s.granted)
  }

  function NextRow(row: Row, clientId: string, now: int): Row {
    RefreshRow(clientId, row.username, row.resource, now + REFRESH_TTL)
  }

  /** The refresh token that replaces a grant carries on its line. */
  function Successor(s: State, x: nat): Birth
    requires x in s.exchanges && Holding(s.exchanges[x].phase) && TicketOf(s, x) in s.born
  {
    var ex, parent := s.exchanges[x], s.born[TicketOf(s, x)];
    Birth(NextRow(ex.phase.row, ex.request.clientId, s.now), parent.root, Some(TicketOf(s, x)), parent.depth + 1)
  }

  /** The insert of the new refresh token took effect. New tokens are random: one that repeats is refused. */
  predicate Stores(s: State, x: nat, fate: Fate)
    requires x in s.exchanges && s.exchanges[x].phase.Minted?
  {
    fate != Lost && NewTicket(s, x) !in s.born && TicketOf(s, x) in s.born
  }

  function NewTicket(s: State, x: nat): Ticket
    requires x in s.exchanges && s.exchanges[x].phase.Minted?
  {
    Refresh(Hash(s.exchanges[x].phase.refresh))
  }

  function PersistStep(s: State, x: nat, fate: Fate): State
    requires x in s.exchanges && s.exchanges[x].phase.Minted?
  {
    var ex := s.exchanges[x];
    var stored := Stores(s, x, fate);
    var answered := stored && fate == Success;
    At(s, x, Finished(if answered then Tokens(ex.phase.access, ex.phase.refresh) else Failed(ServerError)))
      .(rows := if stored then s.rows[NewTicket(s, x) := Successor(s, x).row] else s.rows,
        born := if stored then s.born[NewTicket(s, x) := Successor(s, x)] else s.born,
        responses := if answered then s.responses + [Response(TicketOf(s, x), ex.phase.access, ex.phase.refresh, s.now)]
                     else s.responses)
  }

  /** A failed statement, a dropped connection or a crash: an open transaction is rolled back. */
  function AbortStep(s: State, x: nat): State
    requires x in s.exchanges
  {
    At(s, x, Finished(Failed(ServerError)))
      .(locks := if InTransaction(s.exchanges[x].phase) then s.locks - {TicketOf(s, x)} else s.locks)
  }

  // ----- Steps --------------------------------------------------------------------------------------------------

  predicate InPhase(s: State, x: nat, step: Step) {
    && x in s.exchanges
    && match step
       case Authenticate(_) => s.exchanges[x].phase.Received?
       case Lock(_) => s.exchanges[x].phase.Authenticated?
       case Delete(_) => s.exchanges[x].phase.Locked?
       case Commit(_, _) => s.exchanges[x].phase.Deleted?
       case Check(_) => s.exchanges[x].phase.Consumed?
       case Mint(_, _) => s.exchanges[x].phase.Checked?
       case Persist(_, _) => s.exchanges[x].phase.Minted?
       case _ => !s.exchanges[x].phase.Finished?
  }

  /** An exchange that wants a locked row waits; all others can go on when it is their turn. */
  predicate Enabled(s: State, step: Step) {
    match step
    case Tick(_) => true
    case Register(id, _) => id !in s.clients
    case Authorize(r, user, code, fate) =>
      DecideAuthorize(s.clients, s.server.Resource(), r, user) == IssueTo(user) && fate != Lost && Code(code) !in s.born
    case Begin(x, _) => x !in s.exchanges
    case Lock(x) => InPhase(s, x, step) && TicketOf(s, x) !in s.locks
    case _ => InPhase(s, step.x, step)
  }

  function Next(s: State, step: Step): State {
    if !Enabled(s, step) then s
    else
      match step
      case Tick(elapsed) => s.(now := s.now + elapsed)
      case Register(id, client) => s.(clients := s.clients[id := client])
      case Authorize(r, user, code, _) => AuthorizeStep(s, r, user, code)
      case Begin(x, request) => s.(exchanges := s.exchanges[x := Exchange(request, Received)])
      case Authenticate(x) => At(s, x, AuthenticatedPhase(s.clients, s.exchanges[x].request))
      case Lock(x) => LockStep(s, x)
      case Delete(x) => At(s, x, Deleted(s.exchanges[x].phase.row))
      case Commit(x, fate) => CommitStep(s, x, fate)
      case Check(x) => CheckStep(s, x)
      case Mint(x, refresh) =>
        var row := s.exchanges[x].phase.row;
        At(s, x, Minted(row, GenerateAccessToken(s.server, row.username, s.now), refresh))
      case Persist(x, fate) => PersistStep(s, x, fate)
      case Abort(x) => AbortStep(s, x)
  }

  /** The state after the first k steps. */
  function Run(s: State, steps: seq<Step>, k: nat): State
    requires k <= |steps|
  {
    if k == 0 then s else Next(Run(s, steps, k - 1), steps[k - 1])
  }
}
