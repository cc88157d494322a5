/**
 * Where access tokens come from. Every token handed out stands at the end of a chain of exchanges that starts
 * with a code issued to a logged-in user, redeemed in time by the client it was issued to, at its redirect URI and
 * with the verifier of its challenge; and the token says that user.
 */
module OAuthProvenance {
  import opened Wrappers
  import opened Clock
  import opened OAuthTokens
  import opened OAuthProtocol
  import opened OAuthSafety
  import opened OAuthLines

  // ----- What is recorded ---------------------------------------------------------------------------------------

  /** When a row was stored: its lifetime before it expires. */
  function StoredAt(row: Row): int {
    row.expiresAt - if row.CodeRow? then CODE_TTL else REFRESH_TTL
  }

  /** The checks a grant passed: in its lifetime, the same client, and for a code its redirect URI and its challenge. */
  predicate ProperGrant(row: Row, g: Grant) {
    && StoredAt(row) <= g.at <= row.expiresAt && g.request.clientId == row.clientId
    && (row.CodeRow? && g.request.CodeRequest? ==>
          && g.request.redirectUri == row.redirectUri
          && row.challengeMethod == "S256" && row.challenge == S256(g.request.verifier))
  }

  predicate GrantSound(t: Ticket, g: Grant, born: map<Ticket, Birth>, clients: map<string, Client>) {
    && t in born && g.request.Ticket() == t && g.request.Complete() && ProperGrant(born[t].row, g)
    && AuthenticateClient(clients, g.request.clientId, g.request.secret).None?
  }

  predicate AuthorizationSound(a: Authorization, clients: map<string, Client>, resource: string) {
    DecideAuthorize(clients, resource, a.request, a.user) == IssueTo(a.user)
  }

  /** A code's row is its authorization; a refresh token's row repeats the user and client of the grant before it. */
  predicate BirthSound(t: Ticket, b: Birth, born: map<Ticket, Birth>, authorizations: map<string, Authorization>,
                       granted: map<Ticket, Grant>) {
    match t
    case Code(c) =>
      && b.root == c && b.parent.None? && c in authorizations
      && b.row == RowFor(authorizations[c].request, authorizations[c].user, authorizations[c].at)
    case Refresh(_) =>
      && b.row.RefreshRow? && b.parent.Some? && b.parent.value in born && b.parent.value in granted
      && var p := born[b.parent.value];
      && p.root == b.root && b.depth == p.depth + 1
      && b.row.username == p.row.username && b.row.clientId == p.row.clientId
      && granted[b.parent.value].at <= StoredAt(b.row)
  }

  /** The token was minted for the user at a moment between two others. */
  predicate MintedAt(access: Jwt, server: Server, username: string, since: int, at: int, now: int) {
    since <= at <= now && access == GenerateAccessToken(server, username, at)
  }

  ghost predicate MintedFor(access: Jwt, server: Server, username: string, since: int, now: int) {
    exists at :: MintedAt(access, server, username, since, at, now)
  }

  /** One exchange: who it authenticated as, and that its checks and its token are on record. */
  ghost predicate Traced(ex: Exchange, s: State) {
    var t := ex.request.Ticket();
    && (!ex.phase.Received? && !ex.phase.Finished? ==>
          ex.request.Complete() && AuthenticateClient(s.clients, ex.request.clientId, ex.request.secret).None?)
    && (ex.phase.Consumed? ==> t !in s.granted)
    && (ex.phase.Checked? || ex.phase.Minted? ==>
          t in s.granted && s.granted[t].request == ex.request && s.granted[t].at <= s.now)
    && (ex.phase.Minted? ==> MintedFor(ex.phase.access, s.server, ex.phase.row.username, s.granted[t].at, s.now))
  }

  ghost predicate ResponseSound(r: Response, s: State) {
    && r.ticket in s.born && r.ticket in s.granted && r.at <= s.now
    && MintedFor(r.access, s.server, s.born[r.ticket].row.username, s.granted[r.ticket].at, r.at)
    && var t := Refresh(Hash(r.refresh));
    t in s.born && s.born[t].parent == Some(r.ticket)
  }

  ghost predicate GrantsSound(s: State) {
    forall t :: t in s.granted ==> GrantSound(t, s.granted[t], s.born, s.clients)
  }

  ghost predicate AuthorizationsSound(s: State) {
    forall c :: c in s.authorizations ==>
      AuthorizationSound(s.authorizations[c], s.clients, s.server.Resource()) && Code(c) in s.born
  }

  ghost predicate BirthsSound(s: State) {
    forall t :: t in s.born ==> BirthSound(t, s.born[t], s.born, s.authorizations, s.granted)
  }

  ghost predicate BirthsPast(s: State) {
    forall t :: t in s.born ==> StoredAt(s.born[t].row) <= s.now
  }

  ghost predicate AllTraced(s: State) {
    forall x :: x in s.exchanges ==> Traced(s.exchanges[x], s)
  }

  ghost predicate ResponsesSound(s: State) {
    forall i :: 0 <= i < |s.responses| ==> ResponseSound(s.responses[i], s)
  }

  ghost predicate Provenance(s: State) {
    GrantsSound(s) && AuthorizationsSound(s) && BirthsSound(s) && AllTraced(s) && ResponsesSound(s)
    && BirthsPast(s) && s.granted.Keys <= s.spent
  }

  // ----- Growth: later states record at least as much ---------------------------------------------------------------

  /**
   * Nothing recorded is changed: the later state has more clients, births, authorizations and grants, and a later
   * clock.
   */
  ghost predicate Grows(s: State, s': State) {
    && s'.server == s.server && s.now <= s'.now && s.spent <= s'.spent
    && Extends(s.clients, s'.clients) && Extends(s.born, s'.born)
    && Extends(s.authorizations, s'.authorizations) && Extends(s.granted, s'.granted)
  }

  predicate Extends<K, V(==)>(m: map<K, V>, m': map<K, V>) {
    forall k :: k in m ==> k in m' && m'[k] == m[k]
  }

  lemma InsertExtends<K, V>(m: map<K, V>, k: K, v: V)
    ensures Extends(m, m) && (k !in m ==> Extends(m, m[k := v]))
  {
  }

  lemma GrantStays(s: State, s': State, t: Ticket)
    requires Grows(s, s') && t in s.granted && GrantSound(t, s.granted[t], s.born, s.clients)
    ensures t in s'.granted && GrantSound(t, s'.granted[t], s'.born, s'.clients)
  {
  }

  lemma AuthorizationStays(s: State, s': State, c: string)
    requires Grows(s, s') && c in s.authorizations
    requires AuthorizationSound(s.authorizations[c], s.clients, s.server.Resource())
    ensures AuthorizationSound(s'.authorizations[c], s'.clients, s'.server.Resource())
  {
  }

  lemma BirthStays(s: State, s': State, t: Ticket)
    requires Grows(s, s') && t in s.born && BirthSound(t, s.born[t], s.born, s.authorizations, s.granted)
    ensures BirthSound(t, s'.born[t], s'.born, s'.authorizations, s'.granted)
  {
  }

  lemma MintStays(access: Jwt, server: Server, username: string, since: int, now: int, later: int)
    requires MintedFor(access, server, username, since, now) && now <= later
    ensures MintedFor(access, server, username, since, later)
  {
    var at :| MintedAt(access, server, username, since, at, now);
    assert MintedAt(access, server, username, since, at, later);
  }

  lemma ResponseStays(s: State, s': State, r: Response)
    requires Grows(s, s') && ResponseSound(r, s)
    ensures ResponseSound(r, s')
  {
    MintStays(r.access, s.server, s.born[r.ticket].row.username, s.granted[r.ticket].at, r.at, r.at);
  }

  /** An exchange that does not move stays traced, unless its grant was passed by another exchange meanwhile. */
  lemma TracedStays(s: State, s': State, ex: Exchange)
    requires Grows(s, s') && Traced(ex, s)
    requires ex.phase.Consumed? ==> ex.request.Ticket() !in s'.granted
    ensures Traced(ex, s')
  {
    if ex.phase.Minted? {
      MintStays(ex.phase.access, s.server, ex.phase.row.username, s.granted[ex.request.Ticket()].at, s.now, s'.now);
    }
  }

  // ----- Steps --------------------------------------------------------------------------------------------------

  // What the steps of an exchange leave as it is.

  lemma LockIsQuiet(s: State, x: nat)
    requires x in s.exchanges
    ensures SameRecords(s, LockStep(s, x))
  {
  }

  lemma AbortIsQuiet(s: State, x: nat)
    requires x in s.exchanges
    ensures SameRecords(s, AbortStep(s, x))
  {
  }

  lemma CommitIsQuiet(s: State, x: nat, fate: Fate)
    requires x in s.exchanges && InTransaction(s.exchanges[x].phase)
    ensures SameRecords(s, CommitStep(s, x, fate))
  {
  }

  lemma CheckIsQuiet(s: State, x: nat)
    requires x in s.exchanges && Holding(s.exchanges[x].phase)
    ensures SameRecords(s, CheckStep(s, x).(granted := s.granted))
  {
  }

  predicate SameRecords(s: State, s': State) {
    s'.now == s.now && s'.clients == s.clients && s'.born == s.born && s'.authorizations == s.authorizations
    && s'.granted == s.granted && s'.server == s.server && s.spent <= s'.spent
  }

  lemma NothingRecordedTwice(s: State)
    requires AllTraced(s) && AuthorizationsSound(s)
    ensures forall x :: x in s.exchanges && s.exchanges[x].phase.Consumed? ==> TicketOf(s, x) !in s.granted
    ensures forall c :: Code(c) !in s.born ==> c !in s.authorizations
  {
    forall x | x in s.exchanges && s.exchanges[x].phase.Consumed?
      ensures TicketOf(s, x) !in s.granted
    {
      assert Traced(s.exchanges[x], s);
    }
  }

  lemma StepGrows(s: State, step: Step)
    requires AllTraced(s) && AuthorizationsSound(s)
    ensures Grows(s, Next(s, step))
  {
    hide AllTraced, AuthorizationsSound, Extends, AuthenticatedPhase, CheckedPhase, GenerateAccessToken,
         DecideAuthorize,
         RowFor, Successor;
    NothingRecordedTwice(s);
    Unchanged(s);
    if Enabled(s, step) {
      match step
      case Register(id, client) => InsertExtends(s.clients, id, client);
      case Authorize(r, user, code, _) =>
        InsertExtends(s.born, Code(code), Next(s, step).born[Code(code)]);
        InsertExtends(s.authorizations, code, Authorization(r, user, s.now));
      case Check(x) => InsertExtends(s.granted, TicketOf(s, x), Grant(s.exchanges[x].request, s.now));
      case Persist(x, fate) =>
        if Stores(s, x, fate) {
          InsertExtends(s.born, NewTicket(s, x), Successor(s, x));
        }
      case _ =>
    }
  }

  lemma Unchanged(s: State)
    ensures Grows(s, s)
  {
  }

  /** The grants that pass: the exchange's row is the grant's, and all checks held when they were made. */
  lemma CheckIsSound(s: State, x: nat)
    requires Tables(s) && AllTraced(s) && BirthsPast(s) && x in s.exchanges && s.exchanges[x].phase.Consumed?
    requires CheckStep(s, x).exchanges[x].phase.Checked?
    ensures GrantSound(TicketOf(s, x), Grant(s.exchanges[x].request, s.now), s.born, s.clients)
    ensures TicketOf(s, x) in s.spent
  {
    assert Traced(s.exchanges[x], s);
    assert Sound(x, s.exchanges[x], s.rows, s.locks, s.born, s.spent);
  }

  lemma StepKeepsGrants(s: State, step: Step)
    requires Tables(s) && Provenance(s) && Grows(s, Next(s, step))
    ensures GrantsSound(Next(s, step)) && Next(s, step).granted.Keys <= Next(s, step).spent
  {
    hide AuthenticatedPhase, GenerateAccessToken, DecideAuthorize, GrantSound, Grows, RowsBorn, SpentBorn, LocksHeld,
         AllSound,
         AllTraced, BirthsSound, ResponsesSound, AuthorizationsSound;
    var s' := Next(s, step);
    assert s.spent <= s'.spent;
    forall t | t in s'.granted
      ensures GrantSound(t, s'.granted[t], s'.born, s'.clients) && t in s'.spent
    {
      if t in s.granted {
        GrantStays(s, s', t);
      } else {
        CheckIsSound(s, step.x);
      }
    }
  }

  lemma StepKeepsAuthorizations(s: State, step: Step)
    requires AuthorizationsSound(s) && Grows(s, Next(s, step))
    ensures AuthorizationsSound(Next(s, step))
  {
    hide AuthenticatedPhase, CheckedPhase, GenerateAccessToken, NextRow;
    var s' := Next(s, step);
    forall c | c in s'.authorizations
      ensures AuthorizationSound(s'.authorizations[c], s'.clients, s'.server.Resource()) && Code(c) in s'.born
    {
      if c in s.authorizations {
        AuthorizationStays(s, s', c);
      }
    }
  }

  lemma StepKeepsBirthsPast(s: State, step: Step)
    requires BirthsPast(s)
    ensures BirthsPast(Next(s, step))
  {
    hide AuthenticatedPhase, GenerateAccessToken, DecideAuthorize, LockStep, CommitStep, CheckStep, AbortStep;
    var s' := Next(s, step);
    if Enabled(s, step) {
      match step
      case Lock(x) => LockIsQuiet(s, x);
      case Commit(x, fate) => CommitIsQuiet(s, x, fate);
      case Check(x) => CheckIsQuiet(s, x);
      case Abort(x) => AbortIsQuiet(s, x);
      case _ =>
    }
    forall t | t in s'.born
      ensures StoredAt(s'.born[t].row) <= s'.now
    {
      assert t in s.born ==> StoredAt(s.born[t].row) <= s.now;
    }
  }

  lemma SuccessorIsSound(s: State, x: nat)
    requires Tables(s) && AllTraced(s) && GrantsSound(s) && x in s.exchanges && s.exchanges[x].phase.Minted?
    ensures TicketOf(s, x) in s.born && TicketOf(s, x) in s.granted
    ensures BirthSound(NewTicket(s, x), Successor(s, x), s.born, s.authorizations, s.granted)
  {
    assert Traced(s.exchanges[x], s);
    assert Sound(x, s.exchanges[x], s.rows, s.locks, s.born, s.spent);
    assert GrantSound(TicketOf(s, x), s.granted[TicketOf(s, x)], s.born, s.clients);
  }

  lemma StepKeepsBirths(s: State, step: Step)
    requires Tables(s) && Provenance(s) && Grows(s, Next(s, step))
    ensures BirthsSound(Next(s, step))
  {
    hide RowsBorn, SpentBorn, LocksHeld, AllSound, GrantsSound, AuthorizationsSound, AllTraced, ResponsesSound,
         BirthSound, Grows;
    var s' := Next(s, step);
    if Enabled(s, step) && step.Authorize? {
      CodeIsSound(s, step.authorize, step.user, step.code);
    }
    if Enabled(s, step) && step.Persist? {
      SuccessorIsSound(s, step.x);
    }
    forall t | t in s'.born
      ensures BirthSound(t, s'.born[t], s'.born, s'.authorizations, s'.granted)
    {
      if t in s.born {
        BirthStays(s, s', t);
      } else if step.Persist? {
        NewBirthStays(s, s', t, s'.born[t]);
      }
    }
  }

  lemma CodeIsSound(s: State, r: AuthorizeRequest, user: string, code: string)
    ensures var s' := AuthorizeStep(s, r, user, code);
            BirthSound(Code(code), s'.born[Code(code)], s'.born, s'.authorizations, s'.granted)
  {
  }

  lemma NewBirthStays(s: State, s': State, t: Ticket, b: Birth)
    requires Grows(s, s') && BirthSound(t, b, s.born, s.authorizations, s.granted)
    ensures BirthSound(t, b, s'.born, s'.authorizations, s'.granted)
  {
  }

  /** Two exchanges never hold the same grant, so a grant that is passed now was waiting in no other exchange. */
  lemma OthersWaitElsewhere(s: State, x: nat, y: nat)
    requires Linear(s) && x in s.exchanges && y in s.exchanges && s.exchanges[x].phase.Consumed?
    requires s.exchanges[y].phase.Consumed?
    requires TicketOf(s, y) == TicketOf(s, x)
    ensures x == y
  {
    assert SameLine(s.exchanges[x], s.exchanges[y], s.born);
  }

  lemma ExchangeOf(s: State, x: nat)
    requires AllTraced(s) && Tables(s) && x in s.exchanges
    ensures Traced(s.exchanges[x], s) && Sound(x, s.exchanges[x], s.rows, s.locks, s.born, s.spent)
    ensures TicketOf(s, x) in s.rows ==> TicketOf(s, x) !in s.spent
  {
  }

  /** The exchange that moves: what it newly claims is on record. */
  lemma MoverIsTraced(s: State, step: Step)
    requires AllTraced(s) && Enabled(s, step) && !step.Tick? && !step.Register? && !step.Authorize?
    requires s.granted.Keys <= s.spent && Tables(s)
    ensures step.x in Next(s, step).exchanges && Traced(Next(s, step).exchanges[step.x], Next(s, step))
  {
    hide AllTraced, RowsBorn, SpentBorn, LocksHeld, AllSound;
    if !step.Begin? {
      ExchangeOf(s, step.x);
    }
    if step.Mint? {
      assert MintedAt(Next(s, step).exchanges[step.x].phase.access, s.server, s.exchanges[step.x].phase.row.username,
                      s.granted[TicketOf(s, step.x)].at, s.now, s.now);
    }
  }

  lemma OthersStayTraced(s: State, step: Step, y: nat)
    requires Linear(s) && AllTraced(s) && Grows(s, Next(s, step)) && y in s.exchanges
    requires !(Enabled(s, step) && step.Check? && step.x == y)
    ensures Traced(s.exchanges[y], Next(s, step))
  {
    assert Traced(s.exchanges[y], s);
    hide Traced, AllTraced, Grows, Linear, Next;
    if s.exchanges[y].phase.Consumed? {
      WaitingIsUngranted(s, step, y);
    }
    TracedStays(s, Next(s, step), s.exchanges[y]);
  }

  predicate Moves(s: State, step: Step, x: nat) {
    Enabled(s, step) && !step.Tick? && !step.Register? && !step.Authorize? && step.x == x
  }

  predicate SameBut(exchanges: map<nat, Exchange>, exchanges': map<nat, Exchange>, x: nat) {
    exchanges'.Keys == exchanges.Keys && forall y :: y in exchanges && y != x ==> exchanges'[y] == exchanges[y]
  }

  lemma PhaseTouchesOne(s: State, x: nat, phase: Phase)
    requires x in s.exchanges
    ensures SameBut(s.exchanges, At(s, x, phase).exchanges, x)
  {
  }

  lemma StepsTouchOne(s: State, x: nat, fate: Fate)
    requires x in s.exchanges
    ensures SameBut(s.exchanges, LockStep(s, x).exchanges, x) && SameBut(s.exchanges, AbortStep(s, x).exchanges, x)
    ensures InTransaction(s.exchanges[x].phase) ==> SameBut(s.exchanges, CommitStep(s, x, fate).exchanges, x)
    ensures Holding(s.exchanges[x].phase) ==> SameBut(s.exchanges, CheckStep(s, x).exchanges, x)
    ensures s.exchanges[x].phase.Minted? ==> SameBut(s.exchanges, PersistStep(s, x, fate).exchanges, x)
  {
    hide SameBut;
    forall phase
      ensures SameBut(s.exchanges, At(s, x, phase).exchanges, x)
    {
      PhaseTouchesOne(s, x, phase);
    }
  }

  lemma OthersStand(s: State, step: Step, y: nat)
    requires y in Next(s, step).exchanges && !Moves(s, step, y)
    ensures y in s.exchanges && Next(s, step).exchanges[y] == s.exchanges[y]
  {
    hide AuthenticatedPhase, GenerateAccessToken, DecideAuthorize, LockStep, CommitStep, CheckStep, PersistStep,
         AbortStep;
    if Enabled(s, step) && !step.Tick? && !step.Register? && !step.Authorize? && !step.Begin? {
      StepsTouchOne(s, step.x, if step.Commit? || step.Persist? then step.fate else Success);
    }
  }

  lemma StepKeepsTraces(s: State, step: Step)
    requires Tables(s) && Linear(s) && Provenance(s) && Grows(s, Next(s, step))
    ensures AllTraced(Next(s, step))
  {
    hide Tables, GrantsSound, AuthorizationsSound, BirthsSound, ResponsesSound, Traced, Grows, Linear, Next, Enabled;
    var s' := Next(s, step);
    forall y | y in s'.exchanges
      ensures Traced(s'.exchanges[y], s')
    {
      if Moves(s, step, y) {
        MoverIsTraced(s, step);
      } else {
        OthersStand(s, step, y);
        OthersStayTraced(s, step, y);
      }
    }
  }

  lemma WaitingIsUngranted(s: State, step: Step, y: nat)
    requires Linear(s) && AllTraced(s) && y in s.exchanges && s.exchanges[y].phase.Consumed?
    requires !(Enabled(s, step) && step.Check? && step.x == y)
    ensures TicketOf(s, y) !in Next(s, step).granted
  {
    assert Traced(s.exchanges[y], s);
    hide Traced, AllTraced, RowsApart, ExchangesApart, RowsAndExchangesApart;
    if Enabled(s, step) && step.Check? && TicketOf(s, step.x) == TicketOf(s, y) {
      OthersWaitElsewhere(s, step.x, y);
    }
  }

  lemma StepKeepsResponses(s: State, step: Step)
    requires Tables(s) && Provenance(s) && Grows(s, Next(s, step))
    ensures ResponsesSound(Next(s, step))
  {
    hide RowsBorn, SpentBorn, LocksHeld, AllSound, GrantsSound, AuthorizationsSound, BirthsSound, AllTraced,
         ResponseSound, Grows;
    var s' := Next(s, step);
    forall i | 0 <= i < |s'.responses|
      ensures ResponseSound(s'.responses[i], s')
    {
      if i < |s.responses| {
        ResponseStays(s, s', s.responses[i]);
      } else {
        AnswerIsSound(s, step.x, step.fate);
      }
    }
  }

  lemma AnswerIsSound(s: State, x: nat, fate: Fate)
    requires Tables(s) && AllTraced(s) && x in s.exchanges && s.exchanges[x].phase.Minted? && Stores(s, x, fate)
    ensures var ex := s.exchanges[x];
            ResponseSound(Response(TicketOf(s, x), ex.phase.access, ex.phase.refresh, s.now), PersistStep(s, x, fate))
  {
    assert Traced(s.exchanges[x], s);
    assert Sound(x, s.exchanges[x], s.rows, s.locks, s.born, s.spent);
  }

  // ----- Theorems over runs -----------------------------------------------------------------------------------------

  lemma StepKeepsProvenance(s: State, step: Step)
    requires Tables(s) && Linear(s) && Provenance(s)
    ensures Provenance(Next(s, step)) && Grows(s, Next(s, step))
  {
    hide Tables, Linear, Grows, GrantsSound, AuthorizationsSound, BirthsSound, BirthsPast, AllTraced, ResponsesSound,
         Next;
    StepGrows(s, step);
    StepKeepsGrants(s, step);
    StepKeepsAuthorizations(s, step);
    StepKeepsBirths(s, step);
    StepKeepsBirthsPast(s, step);
    StepKeepsTraces(s, step);
    StepKeepsResponses(s, step);
  }

  lemma {:induction false} RunKeepsProvenance(server: Server, now: int, steps: seq<Step>, k: nat)
    requires k <= |steps|
    ensures Provenance(Run(Initial(server, now), steps, k)) && Run(Initial(server, now), steps, k).server == server
  {
    hide Tables, Linear, RootsBorn, ReturnedOnce, Next;
    if k > 0 {
      RunKeepsProvenance(server, now, steps, k - 1);
      InitialIsSafe(server, now);
      RunIsSafe(Initial(server, now), steps, k - 1);
      StepKeepsProvenance(Run(Initial(server, now), steps, k - 1), steps[k - 1]);
    }
  }

  /** The grants from the first code of a line to one of its tickets, oldest first. */
  ghost function Chain(s: State, t: Ticket): (chain: seq<Ticket>)
    requires BirthsSound(s) && t in s.born
    ensures |chain| > 0 && chain[|chain| - 1] == t
    decreases s.born[t].depth
  {
    assert BirthSound(t, s.born[t], s.born, s.authorizations, s.granted);
    if t.Code? then [t] else Chain(s, s.born[t].parent.value) + [t]
  }

  /** Each grant of the chain replaced the one before it, after a check of that one that passed. */
  ghost predicate Linked(s: State, chain: seq<Ticket>, i: nat) {
    && 0 < i < |chain| && chain[i] in s.born && s.born[chain[i]].parent == Some(chain[i - 1])
    && chain[i - 1] in s.born && chain[i - 1] in s.granted
    && s.granted[chain[i - 1]].at <= StoredAt(s.born[chain[i]].row)
  }

  /** The ticket belongs to the line of a code: the same user and the same client. */
  ghost predicate OnLine(s: State, t: Ticket, code: string) {
    && t in s.born && s.born[t].root == code && code in s.authorizations
    && s.born[t].row.username == s.authorizations[code].user
    && s.born[t].row.clientId == s.authorizations[code].request.clientId
  }

  lemma {:induction false} ChainIsLinked(s: State, t: Ticket)
    requires BirthsSound(s) && t in s.born
    ensures var chain := Chain(s, t);
            && chain[0] == Code(s.born[t].root)
            && (forall i: nat :: 0 < i < |chain| ==> Linked(s, chain, i))
            && (forall i :: 0 <= i < |chain| ==> OnLine(s, chain[i], s.born[t].root))
    decreases s.born[t].depth
  {
    assert BirthSound(t, s.born[t], s.born, s.authorizations, s.granted);
    if t.Refresh? {
      var parent := s.born[t].parent.value;
      var before := Chain(s, parent);
      ChainIsLinked(s, parent);
      hide BirthsSound;
      forall i: nat | 0 < i < |Chain(s, t)|
        ensures Linked(s, Chain(s, t), i)
      {
        assert i < |before| ==> Linked(s, before, i);
      }
    }
  }

  /**
   * The code was issued to the user who was logged in, for this client, one of its redirect URIs and an S256 challenge.
   */
  predicate ProperlyIssued(s: State, code: string) {
    && code in s.authorizations
    && var a := s.authorizations[code];
    && a.user != "" && a.request.clientId in s.clients
    && s.clients[a.request.clientId].AllowsRedirectUri(a.request.redirectUri)
    && a.request.challengeMethod == "S256" && (a.request.resource == "" || a.request.resource == s.server.Resource())
  }

  /**
   * The code was redeemed within five minutes of its issue, with its redirect URI and the verifier of its challenge.
   */
  predicate ProperlyRedeemed(s: State, code: string) {
    && code in s.authorizations && Code(code) in s.granted
    && var a, g := s.authorizations[code], s.granted[Code(code)];
    && g.request.CodeRequest? && g.request.code == code && a.at <= g.at <= a.at + CODE_TTL
    && g.request.redirectUri == a.request.redirectUri && a.request.challenge == S256(g.request.verifier)
  }

  /** The grant was passed in its lifetime to its line's client, authenticated as the client's registration asks. */
  predicate PassedByClient(s: State, t: Ticket, clientId: string) {
    && t in s.born && t in s.granted && ProperGrant(s.born[t].row, s.granted[t])
    && s.granted[t].request.clientId == clientId && s.granted[t].request.Ticket() == t
    && AuthenticateClient(s.clients, clientId, s.granted[t].request.secret).None?
  }

  lemma OnLinePassed(s: State, t: Ticket, code: string)
    requires GrantsSound(s) && OnLine(s, t, code) && t in s.granted
    ensures PassedByClient(s, t, s.authorizations[code].request.clientId)
  {
    assert GrantSound(t, s.granted[t], s.born, s.clients);
  }

  lemma RootIsProper(s: State, code: string)
    requires Provenance(s) && Code(code) in s.born && Code(code) in s.granted
    ensures ProperlyIssued(s, code) && ProperlyRedeemed(s, code)
  {
    hide GrantsSound, AuthorizationsSound, BirthsSound, AllTraced, ResponsesSound;
    CodeBirth(s, code);
    GrantOf(s, Code(code));
    AuthorizationOf(s, code);
  }

  lemma GrantOf(s: State, t: Ticket)
    requires GrantsSound(s) && t in s.granted
    ensures GrantSound(t, s.granted[t], s.born, s.clients)
  {
  }

  lemma AuthorizationOf(s: State, code: string)
    requires AuthorizationsSound(s) && code in s.authorizations
    ensures AuthorizationSound(s.authorizations[code], s.clients, s.server.Resource())
  {
  }

  lemma CodeBirth(s: State, code: string)
    requires BirthsSound(s) && Code(code) in s.born
    ensures code in s.authorizations
    ensures var a := s.authorizations[code]; s.born[Code(code)].row == RowFor(a.request, a.user, a.at)
  {
    assert BirthSound(Code(code), s.born[Code(code)], s.born, s.authorizations, s.granted);
  }

  /**
   * Token provenance: every access token returned in any run was reached through a chain of exchanges, all by one
   * and the same authenticated client and each in the lifetime of its grant, from a properly issued and properly
   * redeemed code; and the server recovers from it the user to whom the code was issued, exactly until one hour, in
   * whole seconds, after a moment between the last check and the answer.
   */
  lemma TokenProvenance(server: Server, now: int, steps: seq<Step>, k: nat, n: nat)
    returns (chain: seq<Ticket>, minted: int)
    requires k <= |steps| && n < |Run(Initial(server, now), steps, k).responses|
    ensures var s := Run(Initial(server, now), steps, k);
            var r := s.responses[n];
            && |chain| > 0 && chain[|chain| - 1] == r.ticket && chain[0].Code?
            && ProperlyIssued(s, chain[0].code) && ProperlyRedeemed(s, chain[0].code)
            && (forall i: nat :: 0 < i < |chain| ==> Linked(s, chain, i))
            && (forall i :: 0 <= i < |chain| ==>
                  PassedByClient(s, chain[i], s.authorizations[chain[0].code].request.clientId))
            && s.granted[r.ticket].at <= minted <= r.at
            && forall t :: VerifyAccessToken(server, r.access, t) ==
                           if t < Deadline(minted, ACCESS_TTL) then Some(s.authorizations[chain[0].code].user) else None
  {
    var s := Run(Initial(server, now), steps, k);
    RunKeepsProvenance(server, now, steps, k);
    chain, minted := ResponseProvenance(s, s.responses[n]);
  }

  lemma ResponseProvenance(s: State, r: Response) returns (chain: seq<Ticket>, minted: int)
    requires Provenance(s) && r in s.responses
    ensures && |chain| > 0 && chain[|chain| - 1] == r.ticket && chain[0].Code?
            && ProperlyIssued(s, chain[0].code) && ProperlyRedeemed(s, chain[0].code)
            && (forall i: nat :: 0 < i < |chain| ==> Linked(s, chain, i))
            && (forall i :: 0 <= i < |chain| ==>
                  PassedByClient(s, chain[i], s.authorizations[chain[0].code].request.clientId))
            && s.granted[r.ticket].at <= minted <= r.at
            && forall t :: VerifyAccessToken(s.server, r.access, t) ==
                           if t < Deadline(minted, ACCESS_TTL) then Some(s.authorizations[chain[0].code].user) else None
  {
    assert ResponseSound(r, s);
    chain := Chain(s, r.ticket);
    ChainIsLinked(s, r.ticket);
    var code := s.born[r.ticket].root;
    var username := s.born[r.ticket].row.username;
    minted :| MintedAt(r.access, s.server, username, s.granted[r.ticket].at, minted, r.at);
    hide GrantsSound, AuthorizationsSound, BirthsSound, AllTraced, ResponsesSound, Chain, ResponseSound,
         GenerateAccessToken;
    forall i | 0 <= i < |chain|
      ensures chain[i] in s.granted && PassedByClient(s, chain[i], s.authorizations[code].request.clientId)
    {
      assert OnLine(s, chain[i], code);
      assert i < |chain| - 1 ==> Linked(s, chain, i + 1);
      OnLinePassed(s, chain[i], code);
    }
    assert OnLine(s, chain[0], code);
    RootIsProper(s, code);
    assert OnLine(s, r.ticket, code);
    forall t
      ensures VerifyAccessToken(s.server, r.access, t) ==
              if t < Deadline(minted, ACCESS_TTL) then Some(username) else None
    {
      MintedTokenVerifies(s.server, username, minted, s.server, t);
    }
  }
}
