/**
 * Single redemption and linear lines. A line is everything that descends from one authorization code: the code's
 * row, the refresh tokens that replaced it one after the other, and the exchanges that are replacing one by the next.
 */
module OAuthLines {
  import opened Wrappers
  import opened OAuthTokens
  import opened OAuthProtocol
  import opened OAuthSafety

  // ----- One holder a line --------------------------------------------------------------------------------------

  function LineOf(t: Ticket, born: map<Ticket, Birth>): Option<string> {
    if t in born then Some(born[t].root) else None
  }

  predicate HoldsLine(ex: Exchange, born: map<Ticket, Birth>, line: Option<string>) {
    Holding(ex.phase) && LineOf(ex.request.Ticket(), born) == line
  }

  /** Both exchanges hold grants of one line. */
  predicate SameLine(ex: Exchange, other: Exchange, born: map<Ticket, Birth>) {
    Holding(ex.phase) && HoldsLine(other, born, LineOf(ex.request.Ticket(), born))
  }

  ghost predicate RootsBorn(born: map<Ticket, Birth>) {
    forall t {:trigger born[t]} :: t in born ==> Code(born[t].root) in born
  }

  ghost predicate RowsApart(rows: map<Ticket, Row>, born: map<Ticket, Birth>) {
    forall t, u :: t in rows && u in rows && LineOf(t, born) == LineOf(u, born) ==> t == u
  }

  ghost predicate ExchangesApart(exchanges: map<nat, Exchange>, born: map<Ticket, Birth>) {
    forall x, y :: x in exchanges && y in exchanges && SameLine(exchanges[x], exchanges[y], born) ==> x == y
  }

  ghost predicate RowsAndExchangesApart(rows: map<Ticket, Row>, exchanges: map<nat, Exchange>,
                                        born: map<Ticket, Birth>) {
    forall t, x :: t in rows && x in exchanges ==> !HoldsLine(exchanges[x], born, LineOf(t, born))
  }

  ghost predicate Linear(s: State) {
    && RowsApart(s.rows, s.born) && ExchangesApart(s.exchanges, s.born)
    && RowsAndExchangesApart(s.rows, s.exchanges, s.born)
  }

  /** A phase that holds nothing new. */
  lemma PhaseKeepsLinear(s: State, x: nat, phase: Phase)
    requires Linear(s) && x in s.exchanges && (Holding(phase) ==> Holding(s.exchanges[x].phase))
    ensures Linear(At(s, x, phase))
  {
    var s' := At(s, x, phase);
    forall y, z | y in s'.exchanges && z in s'.exchanges && SameLine(s'.exchanges[y], s'.exchanges[z], s'.born)
      ensures y == z
    {
      assert SameLine(s.exchanges[y], s.exchanges[z], s.born);
    }
    forall t, y | t in s'.rows && y in s'.exchanges
      ensures !HoldsLine(s'.exchanges[y], s'.born, LineOf(t, s'.born))
    {
      assert !HoldsLine(s.exchanges[y], s.born, LineOf(t, s.born));
    }
  }

  /** The row's line passes from the row to the exchange that consumed it, or ends. */
  lemma ConsumeKeepsLinear(s: State, x: nat, phase: Phase)
    requires Linear(s) && x in s.exchanges && TicketOf(s, x) in s.rows && RowsBorn(s.rows, s.born, s.spent)
    ensures Linear(At(s, x, phase).(rows := s.rows - {TicketOf(s, x)}))
  {
    var t := TicketOf(s, x);
    var s' := At(s, x, phase).(rows := s.rows - {t});
    assert forall y :: y in s.exchanges ==> !HoldsLine(s.exchanges[y], s.born, LineOf(t, s.born));
    forall y, z | y in s'.exchanges && z in s'.exchanges && SameLine(s'.exchanges[y], s'.exchanges[z], s'.born)
      ensures y == z
    {
      if y != x && z != x {
        assert SameLine(s.exchanges[y], s.exchanges[z], s.born);
      }
    }
    forall u, y | u in s'.rows && y in s'.exchanges
      ensures !HoldsLine(s'.exchanges[y], s'.born, LineOf(u, s'.born))
    {
      assert !HoldsLine(s.exchanges[y], s.born, LineOf(u, s.born));
    }
  }

  /** A row on a line that nothing else is on. */
  lemma InsertKeepsLinear(s: State, t: Ticket, birth: Birth)
    requires Linear(s) && Tables(s) && t !in s.born
    requires forall u :: u in s.rows ==> LineOf(u, s.born) != Some(birth.root)
    requires forall y :: y in s.exchanges ==> !HoldsLine(s.exchanges[y], s.born, Some(birth.root))
    ensures Linear(s.(rows := s.rows[t := birth.row], born := s.born[t := birth]))
  {
    var s' := s.(rows := s.rows[t := birth.row], born := s.born[t := birth]);
    forall u | u in s.rows
      ensures LineOf(u, s'.born) == LineOf(u, s.born) != Some(birth.root)
    {
    }
    forall y | y in s.exchanges
      ensures Holding(s.exchanges[y].phase) ==>
                LineOf(s.exchanges[y].request.Ticket(), s'.born) == LineOf(s.exchanges[y].request.Ticket(), s.born)
      ensures !HoldsLine(s.exchanges[y], s'.born, Some(birth.root))
    {
      assert Sound(y, s.exchanges[y], s.rows, s.locks, s.born, s.spent);
      assert !HoldsLine(s.exchanges[y], s.born, Some(birth.root));
    }
    InsertApart(s, s', t);
  }

  lemma InsertApart(s: State, s': State, t: Ticket)
    requires Linear(s) && s'.exchanges == s.exchanges && t in s'.born && s'.rows.Keys == s.rows.Keys + {t}
    requires forall u :: u in s.rows ==> LineOf(u, s'.born) == LineOf(u, s.born) != LineOf(t, s'.born)
    requires forall y :: y in s.exchanges && Holding(s.exchanges[y].phase) ==>
               LineOf(s.exchanges[y].request.Ticket(), s'.born) ==
               LineOf(s.exchanges[y].request.Ticket(), s.born) != LineOf(t, s'.born)
    ensures RowsApart(s'.rows, s'.born) && ExchangesApart(s'.exchanges, s'.born)
    ensures RowsAndExchangesApart(s'.rows, s'.exchanges, s'.born)
  {
    forall y, z | y in s'.exchanges && z in s'.exchanges && SameLine(s'.exchanges[y], s'.exchanges[z], s'.born)
      ensures y == z
    {
      assert SameLine(s.exchanges[y], s.exchanges[z], s.born);
    }
    forall u, y | u in s'.rows && y in s'.exchanges
      ensures !HoldsLine(s'.exchanges[y], s'.born, LineOf(u, s'.born))
    {
      if u != t {
        assert !HoldsLine(s.exchanges[y], s.born, LineOf(u, s.born));
      }
    }
  }

  // ----- Steps --------------------------------------------------------------------------------------------------

  lemma NoLineYet(born: map<Ticket, Birth>, code: string)
    requires RootsBorn(born) && Code(code) !in born
    ensures forall t :: LineOf(t, born) != Some(code)
  {
  }

  lemma AuthorizeKeepsLinear(s: State, r: AuthorizeRequest, user: string, code: string)
    requires Linear(s) && Tables(s) && RootsBorn(s.born) && Code(code) !in s.born
    ensures Linear(AuthorizeStep(s, r, user, code))
  {
    hide RootsBorn, RowsApart, ExchangesApart, RowsAndExchangesApart, RowsBorn, SpentBorn, LocksHeld, AllSound;
    NoLineYet(s.born, code);
    forall y | y in s.exchanges
      ensures !HoldsLine(s.exchanges[y], s.born, Some(code))
    {
      assert LineOf(s.exchanges[y].request.Ticket(), s.born) != Some(code);
    }
    InsertKeepsLinear(s, Code(code), Birth(RowFor(r, user, s.now), code, None, 0));
  }

  /** Once the exchange that held a line is finished, nothing holds the line. */
  lemma LineIsFree(s: State, x: nat, phase: Phase)
    requires Linear(s) && x in s.exchanges && Holding(s.exchanges[x].phase) && phase.Finished?
    ensures var mid, line := At(s, x, phase), LineOf(TicketOf(s, x), s.born);
            && (forall u :: u in mid.rows ==> LineOf(u, mid.born) != line)
            && (forall y :: y in mid.exchanges ==> !HoldsLine(mid.exchanges[y], mid.born, line))
  {
    var mid, line := At(s, x, phase), LineOf(TicketOf(s, x), s.born);
    forall u | u in mid.rows
      ensures LineOf(u, mid.born) != line
    {
      assert !HoldsLine(s.exchanges[x], s.born, LineOf(u, s.born));
    }
    forall y | y in mid.exchanges
      ensures !HoldsLine(mid.exchanges[y], mid.born, line)
    {
      assert y != x ==> !SameLine(s.exchanges[x], s.exchanges[y], s.born);
    }
  }

  /** The line passes from the exchange to the refresh token it stores, or ends. */
  lemma PersistKeepsLinear(s: State, x: nat, fate: Fate)
    requires Linear(s) && Tables(s) && x in s.exchanges && s.exchanges[x].phase.Minted?
    ensures Linear(PersistStep(s, x, fate))
  {
    hide RowsApart, ExchangesApart, RowsAndExchangesApart, RowsBorn, SpentBorn, LocksHeld, AllSound, HoldsLine;
    var phase := PersistStep(s, x, fate).exchanges[x].phase;
    PhaseKeepsLinear(s, x, phase);
    PhaseKeepsTables(s, x, phase);
    if Stores(s, x, fate) {
      LineIsFree(s, x, phase);
      InsertKeepsLinear(At(s, x, phase), NewTicket(s, x), Successor(s, x));
    }
  }

  lemma CommitKeepsLinear(s: State, x: nat, fate: Fate)
    requires Linear(s) && Tables(s) && x in s.exchanges && s.exchanges[x].phase.Deleted?
    ensures Linear(CommitStep(s, x, fate))
  {
    assert Sound(x, s.exchanges[x], s.rows, s.locks, s.born, s.spent);
    hide RowsApart, ExchangesApart, RowsAndExchangesApart, LocksHeld, AllSound;
    var phase := CommitStep(s, x, fate).exchanges[x].phase;
    if fate == Lost {
      PhaseKeepsLinear(s, x, phase);
    } else {
      ConsumeKeepsLinear(s, x, phase);
    }
  }

  lemma BeginKeepsLinear(s: State, x: nat, request: TokenRequest)
    requires Linear(s) && x !in s.exchanges
    ensures Linear(s.(exchanges := s.exchanges[x := Exchange(request, Received)]))
  {
    var s' := s.(exchanges := s.exchanges[x := Exchange(request, Received)]);
    forall y, z | y in s'.exchanges && z in s'.exchanges && SameLine(s'.exchanges[y], s'.exchanges[z], s'.born)
      ensures y == z
    {
      assert SameLine(s.exchanges[y], s.exchanges[z], s.born);
    }
    forall t, y | t in s'.rows && y in s'.exchanges
      ensures !HoldsLine(s'.exchanges[y], s'.born, LineOf(t, s'.born))
    {
      assert y != x ==> !HoldsLine(s.exchanges[y], s.born, LineOf(t, s.born));
    }
  }

  lemma StepKeepsLinear(s: State, step: Step)
    requires Linear(s) && Tables(s) && RootsBorn(s.born)
    ensures Linear(Next(s, step))
  {
    hide RowsApart, ExchangesApart, RowsAndExchangesApart, RootsBorn, RowsBorn, SpentBorn, LocksHeld, AllSound;
    if Enabled(s, step) {
      match step
      case Tick(_) =>
      case Register(_, _) =>
      case Authorize(r, user, code, _) => AuthorizeKeepsLinear(s, r, user, code);
      case Begin(x, request) => BeginKeepsLinear(s, x, request);
      case Commit(x, fate) => CommitKeepsLinear(s, x, fate);
      case Persist(x, fate) => PersistKeepsLinear(s, x, fate);
      case _ => PhaseKeepsLinear(s, step.x, Next(s, step).exchanges[step.x].phase);
    }
  }

  // ----- Roots and returns --------------------------------------------------------------------------------------

  lemma BirthKeepsRoots(born: map<Ticket, Birth>, t: Ticket, birth: Birth)
    requires RootsBorn(born) && t !in born && (t == Code(birth.root) || Code(birth.root) in born)
    ensures RootsBorn(born[t := birth])
  {
  }

  lemma RootIsBorn(born: map<Ticket, Birth>, t: Ticket)
    requires RootsBorn(born) && t in born
    ensures Code(born[t].root) in born
  {
  }

  lemma StepKeepsRoots(s: State, step: Step)
    requires RootsBorn(s.born)
    ensures RootsBorn(Next(s, step).born)
  {
    hide RootsBorn;
    if Enabled(s, step) {
      match step
      case Authorize(r, user, code, _) =>
        BirthKeepsRoots(s.born, Code(code), Birth(RowFor(r, user, s.now), code, None, 0));
      case Persist(x, fate) =>
        if Stores(s, x, fate) {
          RootIsBorn(s.born, TicketOf(s, x));
          BirthKeepsRoots(s.born, NewTicket(s, x), Successor(s, x));
        }
      case _ =>
    }
  }

  /** Rows were handed to exchanges at most once each, and are spent. */
  ghost predicate ReturnedOnce(returned: seq<Ticket>, spent: set<Ticket>) {
    && (forall i, j :: 0 <= i < j < |returned| ==> returned[i] != returned[j])
    && (forall i :: 0 <= i < |returned| ==> returned[i] in spent)
  }

  lemma CommitKeepsReturns(s: State, x: nat, fate: Fate)
    requires Tables(s) && ReturnedOnce(s.returned, s.spent) && x in s.exchanges && s.exchanges[x].phase.Deleted?
    ensures var s' := CommitStep(s, x, fate); ReturnedOnce(s'.returned, s'.spent)
  {
    assert Sound(x, s.exchanges[x], s.rows, s.locks, s.born, s.spent);
  }

  lemma StepKeepsReturns(s: State, step: Step)
    requires Tables(s) && ReturnedOnce(s.returned, s.spent)
    ensures ReturnedOnce(Next(s, step).returned, Next(s, step).spent)
    ensures s.returned <= Next(s, step).returned && s.spent <= Next(s, step).spent
  {
    hide RowsBorn, SpentBorn, LocksHeld, AllSound, ReturnedOnce;
    if Enabled(s, step) && step.Commit? {
      CommitKeepsReturns(s, step.x, step.fate);
    }
  }

  // ----- Theorems over runs -----------------------------------------------------------------------------------------

  ghost predicate Safe(s: State) {
    Tables(s) && RootsBorn(s.born) && Linear(s) && ReturnedOnce(s.returned, s.spent)
  }

  lemma {:induction false} RunIsSafe(s: State, steps: seq<Step>, k: nat)
    requires Safe(s) && k <= |steps|
    ensures Safe(Run(s, steps, k))
  {
    hide Tables, RootsBorn, Linear, ReturnedOnce, Next;
    if k > 0 {
      RunIsSafe(s, steps, k - 1);
      var prev := Run(s, steps, k - 1);
      StepKeepsTables(prev, steps[k - 1]);
      StepKeepsRoots(prev, steps[k - 1]);
      StepKeepsLinear(prev, steps[k - 1]);
      StepKeepsReturns(prev, steps[k - 1]);
    }
  }

  lemma InitialIsSafe(server: Server, now: int)
    ensures Safe(Initial(server, now))
  {
  }

  lemma {:induction false} RecordsGrow(s: State, steps: seq<Step>, k: nat, l: nat)
    requires Safe(s) && k <= l <= |steps|
    ensures Run(s, steps, k).returned <= Run(s, steps, l).returned && Run(s, steps, k).spent <= Run(s, steps, l).spent
  {
    hide Tables, RootsBorn, Linear, ReturnedOnce, Next;
    if k < l {
      RecordsGrow(s, steps, k, l - 1);
      RunIsSafe(s, steps, l - 1);
      StepKeepsReturns(Run(s, steps, l - 1), steps[l - 1]);
    }
  }

  /**
   * Single redemption: in any interleaving of any number of exchanges, with any statements failing, a code or a
   * refresh token is handed to at most one exchange, and from the commit that removed its row on, reported or not,
   * it can never be redeemed again, whatever the later checks say.
   */
  lemma SingleRedemption(server: Server, now: int, steps: seq<Step>, k: nat, l: nat, t: Ticket)
    requires k <= l <= |steps|
    ensures var s, s' := Run(Initial(server, now), steps, k), Run(Initial(server, now), steps, l);
            && (forall i, j :: 0 <= i < j < |s'.returned| ==> s'.returned[i] != s'.returned[j])
            && s.returned <= s'.returned
            && (t in s.returned ==> t in s.spent)
            && (t in s.spent ==> t in s'.spent && t !in s'.rows)
  {
    InitialIsSafe(server, now);
    RunIsSafe(Initial(server, now), steps, k);
    RunIsSafe(Initial(server, now), steps, l);
    RecordsGrow(Initial(server, now), steps, k, l);
  }

  /** What is on a line at one moment: live rows and exchanges about to replace a row. */
  datatype Holder = Live(t: Ticket) | InFlight(x: nat)

  ghost function Holders(s: State, code: string): set<Holder> {
    (set t | t in s.rows && LineOf(t, s.born) == Some(code) :: Live(t))
    + set x | x in s.exchanges && HoldsLine(s.exchanges[x], s.born, Some(code)) :: InFlight(x)
  }

  lemma HoldersEqual(s: State, code: string, a: Holder, b: Holder)
    requires Linear(s) && a in Holders(s, code) && b in Holders(s, code)
    ensures a == b
  {
    if a.InFlight? && b.InFlight? {
      assert SameLine(s.exchanges[a.x], s.exchanges[b.x], s.born);
    }
  }

  lemma OneHolder(s: State, code: string)
    requires Linear(s)
    ensures |Holders(s, code)| <= 1
  {
    hide Linear;
    var all := Holders(s, code);
    if all != {} {
      var a :| a in all;
      forall b | b in all
        ensures b in {a}
      {
        HoldersEqual(s, code, a, b);
      }
      OnlyOne(all, a);
    }
  }

  lemma OnlyOne(all: set<Holder>, a: Holder)
    requires a in all && forall b :: b in all ==> b in {a}
    ensures |all| == 1
  {
    assert all == {a};
  }

  /**
   * Linear lines: at every moment of every interleaving, the code's own live row, the live refresh tokens that
   * descend from it and the exchanges that hold a consumed row of the line are together at most one.
   */
  lemma LinesStayLinear(server: Server, now: int, steps: seq<Step>, k: nat, code: string)
    requires k <= |steps|
    ensures |Holders(Run(Initial(server, now), steps, k), code)| <= 1
  {
    InitialIsSafe(server, now);
    RunIsSafe(Initial(server, now), steps, k);
    OneHolder(Run(Initial(server, now), steps, k), code);
  }
}
