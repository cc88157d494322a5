/**
 * What holds in every interleaving of any number of exchanges: single redemption, linear lines of refresh tokens,
 * provenance.
 */
module OAuthSafety {
  import opened Wrappers
  import opened OAuthTokens
  import opened OAuthProtocol

  // ----- Rows, locks and transactions ---------------------------------------------------------------------------

  ghost predicate RowsBorn(rows: map<Ticket, Row>, born: map<Ticket, Birth>, spent: set<Ticket>) {
    forall t :: t in rows ==> t in born && born[t].row == rows[t] && t !in spent
  }

  ghost predicate SpentBorn(born: map<Ticket, Birth>, spent: set<Ticket>) {
    forall t :: t in spent ==> t in born
  }

  predicate LockHeld(t: Ticket, x: nat, exchanges: map<nat, Exchange>) {
    x in exchanges && exchanges[x].request.Ticket() == t && InTransaction(exchanges[x].phase)
  }

  ghost predicate LocksHeld(locks: map<Ticket, nat>, exchanges: map<nat, Exchange>) {
    forall t :: t in locks ==> LockHeld(t, locks[t], exchanges)
  }

  /** One exchange, seen against the tables: its lock and its row during the transaction, its grant after it. */
  predicate Sound(x: nat, ex: Exchange, rows: map<Ticket, Row>, locks: map<Ticket, nat>, born: map<Ticket, Birth>,
                  spent: set<Ticket>) {
    var t := ex.request.Ticket();
    && (InTransaction(ex.phase) ==> t in locks && locks[t] == x && t in rows && ex.phase.row == rows[t])
    && (Holding(ex.phase) ==> t in spent && t in born && ex.phase.row == born[t].row)
  }

  ghost predicate AllSound(exchanges: map<nat, Exchange>, rows: map<Ticket, Row>, locks: map<Ticket, nat>,
                           born: map<Ticket, Birth>, spent: set<Ticket>) {
    forall x :: x in exchanges ==> Sound(x, exchanges[x], rows, locks, born, spent)
  }

  ghost predicate Tables(s: State) {
    && RowsBorn(s.rows, s.born, s.spent) && SpentBorn(s.born, s.spent)
    && LocksHeld(s.locks, s.exchanges) && AllSound(s.exchanges, s.rows, s.locks, s.born, s.spent)
  }

  /** Changing the phase of an exchange outside its transaction disturbs nothing. */
  lemma PhaseKeepsTables(s: State, x: nat, phase: Phase)
    requires Tables(s) && x in s.exchanges && !InTransaction(s.exchanges[x].phase) && !InTransaction(phase)
    requires Holding(phase) ==> Holding(s.exchanges[x].phase) && phase.row == s.exchanges[x].phase.row
    ensures Tables(At(s, x, phase))
  {
    assert Sound(x, s.exchanges[x], s.rows, s.locks, s.born, s.spent);
  }

  lemma LockKeepsTables(s: State, x: nat)
    requires Tables(s) && x in s.exchanges && s.exchanges[x].phase.Authenticated? && TicketOf(s, x) !in s.locks
    ensures Tables(LockStep(s, x))
  {
    hide RowsBorn, SpentBorn, LocksHeld, AllSound;
    if TicketOf(s, x) in s.rows {
      TakingKeepsTables(s, x);
    } else {
      PhaseKeepsTables(s, x, Finished(Failed(UnknownGrant)));
    }
  }

  lemma TakingKeepsTables(s: State, x: nat)
    requires Tables(s) && x in s.exchanges && s.exchanges[x].phase.Authenticated?
    requires TicketOf(s, x) in s.rows && TicketOf(s, x) !in s.locks
    ensures var t := TicketOf(s, x); Tables(At(s, x, Locked(s.rows[t])).(locks := s.locks[t := x]))
  {
    var t := TicketOf(s, x);
    var s' := At(s, x, Locked(s.rows[t])).(locks := s.locks[t := x]);
    forall y | y in s'.exchanges
      ensures Sound(y, s'.exchanges[y], s'.rows, s'.locks, s'.born, s'.spent)
    {
      assert Sound(y, s.exchanges[y], s.rows, s.locks, s.born, s.spent);
    }
  }

  lemma DeleteKeepsTables(s: State, x: nat)
    requires Tables(s) && x in s.exchanges && s.exchanges[x].phase.Locked?
    ensures Tables(At(s, x, Deleted(s.exchanges[x].phase.row)))
  {
    assert Sound(x, s.exchanges[x], s.rows, s.locks, s.born, s.spent);
  }

  /** A transaction ends: its lock goes, and its row goes or stays. */
  lemma EndKeepsTables(s: State, x: nat, removed: bool, phase: Phase)
    requires Tables(s) && x in s.exchanges && InTransaction(s.exchanges[x].phase) && !InTransaction(phase)
    requires Holding(phase) ==> removed && phase.row == s.exchanges[x].phase.row
    ensures var t := TicketOf(s, x);
            Tables(At(s, x, phase).(locks := s.locks - {t}, rows := if removed then s.rows - {t} else s.rows,
                                    spent := if removed then s.spent + {t} else s.spent))
  {
    var t := TicketOf(s, x);
    var s' := At(s, x, phase).(locks := s.locks - {t}, rows := if removed then s.rows - {t} else s.rows,
                               spent := if removed then s.spent + {t} else s.spent);
    assert Sound(x, s.exchanges[x], s.rows, s.locks, s.born, s.spent);
    forall y | y in s'.exchanges
      ensures Sound(y, s'.exchanges[y], s'.rows, s'.locks, s'.born, s'.spent)
    {
      assert Sound(y, s.exchanges[y], s.rows, s.locks, s.born, s.spent);
    }
  }

  lemma InsertKeepsTables(s: State, t: Ticket, birth: Birth)
    requires Tables(s) && t !in s.born
    ensures Tables(s.(rows := s.rows[t := birth.row], born := s.born[t := birth]))
  {
    var s' := s.(rows := s.rows[t := birth.row], born := s.born[t := birth]);
    forall y | y in s.exchanges
      ensures Sound(y, s'.exchanges[y], s'.rows, s'.locks, s'.born, s'.spent)
    {
      assert Sound(y, s.exchanges[y], s.rows, s.locks, s.born, s.spent);
    }
  }

  lemma BeginKeepsTables(s: State, x: nat, request: TokenRequest)
    requires Tables(s) && x !in s.exchanges
    ensures Tables(s.(exchanges := s.exchanges[x := Exchange(request, Received)]))
  {
  }

  /** Rows, locks and open transactions fit together in every interleaving. */
  lemma StepKeepsTables(s: State, step: Step)
    requires Tables(s)
    ensures Tables(Next(s, step))
  {
    hide RowsBorn, SpentBorn, LocksHeld, AllSound, LockStep, CommitStep, CheckStep, PersistStep, AbortStep;
    if Enabled(s, step) {
      match step
      case Tick(_) =>
      case Register(_, _) =>
      case Authorize(r, user, code, _) =>
        InsertKeepsTables(s, Code(code), Birth(RowFor(r, user, s.now), code, None, 0));
      case Begin(x, request) => BeginKeepsTables(s, x, request);
      case Authenticate(x) => PhaseKeepsTables(s, x, AuthenticatedPhase(s.clients, s.exchanges[x].request));
      case Lock(x) => LockKeepsTables(s, x);
      case Delete(x) => DeleteKeepsTables(s, x);
      case Commit(x, fate) => CommitKeepsTables(s, x, fate);
      case Check(x) => CheckKeepsTables(s, x);
      case Mint(x, refresh) => PhaseKeepsTables(s, x, Next(s, step).exchanges[x].phase);
      case Persist(x, fate) => PersistKeepsTables(s, x, fate);
      case Abort(x) => AbortKeepsTables(s, x);
    }
  }

  lemma CommitKeepsTables(s: State, x: nat, fate: Fate)
    requires Tables(s) && x in s.exchanges && InTransaction(s.exchanges[x].phase)
    ensures Tables(CommitStep(s, x, fate))
  {
    hide RowsBorn, SpentBorn, LocksHeld, AllSound;
    EndKeepsTables(s, x, fate != Lost, CommitStep(s, x, fate).exchanges[x].phase);
  }

  lemma CheckKeepsTables(s: State, x: nat)
    requires Tables(s) && x in s.exchanges && s.exchanges[x].phase.Consumed?
    ensures Tables(CheckStep(s, x))
  {
    hide RowsBorn, SpentBorn, LocksHeld, AllSound;
    PhaseKeepsTables(s, x, CheckStep(s, x).exchanges[x].phase);
  }

  lemma AbortKeepsTables(s: State, x: nat)
    requires Tables(s) && x in s.exchanges
    ensures Tables(AbortStep(s, x))
  {
    hide RowsBorn, SpentBorn, LocksHeld, AllSound;
    if InTransaction(s.exchanges[x].phase) {
      EndKeepsTables(s, x, false, Finished(Failed(ServerError)));
    } else {
      PhaseKeepsTables(s, x, Finished(Failed(ServerError)));
    }
  }

  lemma PersistKeepsTables(s: State, x: nat, fate: Fate)
    requires Tables(s) && x in s.exchanges && s.exchanges[x].phase.Minted?
    ensures Tables(PersistStep(s, x, fate))
  {
    hide RowsBorn, SpentBorn, LocksHeld, AllSound;
    var phase := PersistStep(s, x, fate).exchanges[x].phase;
    PhaseKeepsTables(s, x, phase);
    if Stores(s, x, fate) {
      InsertKeepsTables(At(s, x, phase), NewTicket(s, x), Successor(s, x));
    }
  }
}
