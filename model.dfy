/**
 * The rules engine: the game's mutable state and the operations that change
 * it (accept and its visits, the double-move announcements, the game-over
 * evaluation, spectator registration and the queries).
 */
module Model {
  import opened Wrappers
  import opened Types
  import opened MoveGen
  import opened Notify
  import opened Config

  /** The exceptions the game throws, as values. */
  datatype ModelError =
    | ColourNotInList         // no player has the move's colour
    | RoundOutOfRange         // the round schedule is read past its end
    | IllegalMove             // the move is not among the legal moves
    | NotATicketMove          // a concealed move that is not a ticket move cannot be reported
    | GameAlreadyOver         // a rotation is started after the game ended
    | SpectatorRegistered
    | SpectatorNotRegistered

  /** Where control goes after a move: the next detective is asked, the rotation ends, or the game ends. */
  datatype Next = AskPlayer(colour: Colour, location: int, moves: set<Move>) | RotationDone | GameEnded

  /** Every field accept may change except revealRound. */
  datatype Snapshot = Snapshot(
    locations: seq<int>, tickets: seq<Ledger>, currentRound: nat, currentPlayer: nat,
    gameOver: bool, xLastLocation: int, xActualLocation: int, gameNotStarted: bool,
    spectators: seq<Spectator>, winningPlayers: set<Colour>, events: seq<Event>)

  /** getDetectiveLocations: the detectives' locations in roster order. */
  function DetectiveLocationsOf(cs: seq<Colour>, ls: seq<int>): seq<int>
    requires |cs| == |ls|
  {
    if cs == [] then []
    else (if cs[0].IsDetective() then [ls[0]] else []) + DetectiveLocationsOf(cs[1..], ls[1..])
  }

  /** The list holds exactly the detectives' locations; with MrX first, it is the roster's tail. */
  lemma {:induction false} DetectiveLocationsExactly(cs: seq<Colour>, ls: seq<int>)
    requires |cs| == |ls|
    ensures forall x :: x in DetectiveLocationsOf(cs, ls) <==> exists i :: 0 <= i < |cs| && cs[i].IsDetective() && ls[i] == x
    ensures (forall i :: 0 <= i < |cs| ==> cs[i].IsDetective()) ==> DetectiveLocationsOf(cs, ls) == ls
    ensures |cs| > 0 && cs[0].IsMrX() && (forall i :: 1 <= i < |cs| ==> cs[i].IsDetective()) ==>
      DetectiveLocationsOf(cs, ls) == ls[1..]
  {
    if cs != [] {
      DetectiveLocationsExactly(cs[1..], ls[1..]);
      assert forall i :: 1 <= i < |cs| ==> cs[i] == cs[1..][i - 1] && ls[i] == ls[1..][i - 1];
      if (forall i :: 1 <= i < |cs| ==> cs[i].IsDetective()) {
        assert forall i :: 0 <= i < |cs[1..]| ==> cs[1..][i].IsDetective();
      }
      forall x | exists i :: 0 <= i < |cs| && cs[i].IsDetective() && ls[i] == x
        ensures x in DetectiveLocationsOf(cs, ls)
      {
        var i :| 0 <= i < |cs| && cs[i].IsDetective() && ls[i] == x;
        if i > 0 {
          assert cs[1..][i - 1].IsDetective() && ls[1..][i - 1] == x;
        }
      }
    }
  }

  /** The colours of the detectives among cs, collected front to back. */
  function DetectiveColoursOf(cs: seq<Colour>): set<Colour>
  {
    if cs == [] then {}
    else DetectiveColoursOf(cs[..|cs| - 1]) + (if cs[|cs| - 1].IsDetective() then {cs[|cs| - 1]} else {})
  }

  /** The collected set holds exactly the detective colours of the roster. */
  lemma {:induction false} DetectiveColoursExactly(cs: seq<Colour>)
    ensures forall c :: c in DetectiveColoursOf(cs) <==> c in cs && c.IsDetective()
  {
    if cs != [] {
      var init := cs[..|cs| - 1];
      DetectiveColoursExactly(init);
      assert cs == init + [cs[|cs| - 1]];
    }
  }

  /** The part of the game state that validMove and the end-of-game rules read. */
  datatype Board = Board(
    rounds: seq<bool>, graph: Graph, colours: seq<Colour>, locations: seq<int>,
    tickets: seq<Ledger>, currentRound: nat, xActualLocation: int)

  /** One location and one complete ledger per player. */
  ghost predicate Shaped(b: Board)
  {
    && |b.locations| == |b.colours| && |b.tickets| == |b.colours|
    && forall i :: 0 <= i < |b.tickets| ==> Complete(b.tickets[i])
  }

  /**
   * The board after visit applies move m: a detective spends the ticket, hands
   * it to MrX and moves; MrX spends the ticket (for a double move the double
   * ticket and both leg tickets), reaches his true destination and the round
   * advances once per leg. MrX's entry in the locations is never updated.
   */
  function AfterVisit(b: Board, m: Move): Board
    requires Shaped(b) && m.colour in b.colours
  {
    var k := IndexOf(b.colours, m.colour);
    match m
    case PassMove(_) => b
    case TicketMove(c, t, d) =>
      var spent := b.tickets[k := Spend(b.tickets[k], t)];
      if c.IsDetective() then
        b.(tickets := spent[0 := Credit(spent[0], t)], locations := b.locations[k := d])
      else
        b.(tickets := spent, xActualLocation := d, currentRound := b.currentRound + 1)
    case DoubleMove(_, first, second) =>
      b.(tickets := b.tickets[k := Spend(Spend(Spend(b.tickets[k], Double), first.ticket), second.ticket)],
         xActualLocation := second.destination, currentRound := b.currentRound + 2)
  }

  /** The number of tickets of kind t a ledger records; none for a kind it does not list. */
  function Held(l: Ledger, t: Ticket): int
  {
    if t in l then l[t] else 0
  }

  /** Handing in a ticket of kind u takes one from the count of u and leaves the other kinds alone. */
  lemma SpendHeld(l: Ledger, u: Ticket, t: Ticket)
    requires u in l
    ensures Held(Spend(l, u), t) == Held(l, t) - (if u == t then 1 else 0)
  {
  }

  /** Receiving a ticket of kind u adds one to the count of u and leaves the other kinds alone. */
  lemma CreditHeld(l: Ledger, u: Ticket, t: Ticket)
    requires u in l
    ensures Held(Credit(l, u), t) == Held(l, t) + (if u == t then 1 else 0)
  {
  }

  /** The number of tickets of kind t the players hold together. */
  function TicketTotal(ts: seq<Ledger>, t: Ticket): int
  {
    if ts == [] then 0 else Held(ts[0], t) + TicketTotal(ts[1..], t)
  }

  /** Replacing one player's ledger changes the total by the difference between the two ledgers. */
  lemma {:induction false} TicketTotalUpdate(ts: seq<Ledger>, k: nat, l: Ledger, t: Ticket)
    requires k < |ts|
    ensures TicketTotal(ts[k := l], t) == TicketTotal(ts, t) - Held(ts[k], t) + Held(l, t)
  {
    if k == 0 {
      assert ts[k := l][1..] == ts[1..];
    } else {
      TicketTotalUpdate(ts[1..], k - 1, l, t);
      assert ts[k := l][1..] == ts[1..][k - 1 := l];
    }
  }

  /** The tickets of kind t that move m hands in: one per leg, and the double ticket itself. */
  function TicketsUsed(m: Move, t: Ticket): nat
  {
    match m
    case PassMove(_) => 0
    case TicketMove(_, u, _) => if u == t then 1 else 0
    case DoubleMove(_, first, second) =>
      (if t == Double then 1 else 0) + (if first.ticket == t then 1 else 0) + (if second.ticket == t then 1 else 0)
  }

  /** visit never creates a ticket: a detective's ticket passes to MrX, and every other ticket handed in leaves the game. */
  lemma VisitConservesTickets(b: Board, m: Move, t: Ticket)
    requires Shaped(b) && m.colour in b.colours && b.colours[0] == Black
    ensures TicketTotal(AfterVisit(b, m).tickets, t) ==
      TicketTotal(b.tickets, t) - (if m.TicketMove? && m.colour.IsDetective() then 0 else TicketsUsed(m, t))
  {
    var k := IndexOf(b.colours, m.colour);
    match m {
      case PassMove(_) =>
      case TicketMove(c, u, _) =>
        var spent := b.tickets[k := Spend(b.tickets[k], u)];
        SpendHeld(b.tickets[k], u, t);
        TicketTotalUpdate(b.tickets, k, Spend(b.tickets[k], u), t);
        if c.IsDetective() {
          assert k != 0 && spent[0] == b.tickets[0];
          CreditHeld(spent[0], u, t);
          TicketTotalUpdate(spent, 0, Credit(spent[0], u), t);
        }
      case DoubleMove(_, first, second) =>
        var l := b.tickets[k];
        SpendHeld(l, Double, t);
        SpendHeld(Spend(l, Double), first.ticket, t);
        SpendHeld(Spend(Spend(l, Double), first.ticket), second.ticket, t);
        TicketTotalUpdate(b.tickets, k, Spend(Spend(Spend(l, Double), first.ticket), second.ticket), t);
    }
  }

  /**
   * A detective's ticket move: the detective hands in one ticket of the kind
   * used, MrX gains one of that kind, the detective stands on the destination
   * and the round, MrX's true location and every other player are unchanged.
   */
  lemma DetectiveMoveEffect(b: Board, m: Move, t: Ticket)
    requires Shaped(b) && m.TicketMove? && m.colour in b.colours && m.colour.IsDetective() && b.colours[0] == Black
    ensures var a := AfterVisit(b, m); var k := IndexOf(b.colours, m.colour);
      && k != 0
      && Held(a.tickets[k], t) == Held(b.tickets[k], t) - (if t == m.ticket then 1 else 0)
      && Held(a.tickets[0], t) == Held(b.tickets[0], t) + (if t == m.ticket then 1 else 0)
      && (forall i :: 0 < i < |b.tickets| && i != k ==> a.tickets[i] == b.tickets[i])
      && |a.locations| == |b.locations| && a.locations[k] == m.destination
      && (forall i :: 0 <= i < |b.locations| && i != k ==> a.locations[i] == b.locations[i])
      && a.currentRound == b.currentRound && a.xActualLocation == b.xActualLocation
  {
    var k := IndexOf(b.colours, m.colour);
    SpendHeld(b.tickets[k], m.ticket, t);
    CreditHeld(b.tickets[0], m.ticket, t);
  }

  /**
   * MrX's ticket move: he hands in one ticket of the kind used, his true
   * location becomes the destination and the round advances by one; the
   * detectives' tickets and every location in the roster are unchanged.
   */
  lemma MrXMoveEffect(b: Board, m: Move, t: Ticket)
    requires Shaped(b) && m.TicketMove? && m.colour == Black && Black in b.colours && b.colours[0] == Black
    ensures var a := AfterVisit(b, m);
      && Held(a.tickets[0], t) == Held(b.tickets[0], t) - (if t == m.ticket then 1 else 0)
      && (forall i :: 0 < i < |b.tickets| ==> a.tickets[i] == b.tickets[i])
      && a.locations == b.locations
      && a.xActualLocation == m.destination && a.currentRound == b.currentRound + 1
  {
    SpendHeld(b.tickets[0], m.ticket, t);
  }

  /**
   * MrX's double move: he hands in one DOUBLE ticket and one ticket per leg,
   * his true location becomes the second leg's destination and the round
   * advances by two; nobody else's tickets or location change.
   */
  lemma DoubleMoveEffect(b: Board, m: Move, t: Ticket)
    requires Shaped(b) && m.DoubleMove? && m.colour == Black && Black in b.colours && b.colours[0] == Black
    ensures var a := AfterVisit(b, m);
      && Held(a.tickets[0], t) == Held(b.tickets[0], t) - TicketsUsed(m, t)
      && (forall i :: 0 < i < |b.tickets| ==> a.tickets[i] == b.tickets[i])
      && a.locations == b.locations
      && a.xActualLocation == m.second.destination && a.currentRound == b.currentRound + 2
  {
    var l := b.tickets[0];
    SpendHeld(l, Double, t);
    SpendHeld(Spend(l, Double), m.first.ticket, t);
    SpendHeld(Spend(Spend(l, Double), m.first.ticket), m.second.ticket, t);
  }

  /** A configuration that passes the checks gives MrX first, detectives after him, distinct colours and complete ledgers. */
  lemma ConfigurationGivesPlayers(rounds: seq<bool>, graph: Graph, mrX: PlayerConfiguration,
                                  first: PlayerConfiguration, rest: seq<PlayerConfiguration>)
    requires CheckConfiguration(rounds, graph, mrX, first, rest) == Pass
    ensures |graph| > 0 && |rounds| > 0
    ensures var ps := Roster(mrX, first, rest); var cs := ColoursOf(ps);
      && 2 <= |cs| && cs[0] == Black && Distinct(cs)
      && (forall i :: 1 <= i < |cs| ==> cs[i].IsDetective())
      && |LocationsOf(ps)| == |ps| && |TicketsOf(ps)| == |ps|
      && (forall i :: 0 <= i < |ps| ==> Complete(TicketsOf(ps)[i]))
  {
    ChecksGiveValidRoster(rounds, graph, mrX, first, rest);
  }

  /** What validMove reads for the player of colour c. */
  function MoverContext(b: Board, c: Colour): (ctx: Context)
    requires Shaped(b) && c in b.colours
    ensures Complete(ctx.ledger)
  {
    Context(b.graph, DetectiveLocationsOf(b.colours, b.locations), c,
            b.tickets[IndexOf(b.colours, c)], b.currentRound == |b.rounds| - 1)
  }

  /** Where validMove looks from: MrX's true location for MrX, the player's location otherwise. */
  function PositionOf(b: Board, c: Colour): int
    requires |b.locations| == |b.colours| && c in b.colours
  {
    if c.IsMrX() then b.xActualLocation else b.locations[IndexOf(b.colours, c)]
  }

  function MovesOf(b: Board, c: Colour): set<Move>
    requires Shaped(b) && c in b.colours
  {
    ValidMoves(MoverContext(b, c), PositionOf(b, c))
  }

  /** Player i, if a detective, is offered the pass move. */
  predicate MustPass(b: Board, i: nat)
    requires Shaped(b) && i < |b.colours|
  {
    b.colours[i].IsDetective() ==> PassMove(b.colours[i]) in MovesOf(b, b.colours[i])
  }

  /** areDetectivesStuck: every detective is offered the pass move. */
  predicate DetectivesStuck(b: Board)
    requires Shaped(b)
  {
    forall i: nat :: i < |b.colours| ==> MustPass(b, i)
  }

  /** isMrXCaptured: some detective stands where MrX really is. */
  predicate Captured(b: Board)
    requires |b.locations| == |b.colours|
  {
    exists i :: 0 <= i < |b.colours| && b.colours[i].IsDetective() && b.locations[i] == b.xActualLocation
  }

  /** The first i + 1 players pass the check exactly when the first i do and player i does. */
  lemma MustPassStep(b: Board, i: nat)
    requires Shaped(b) && i < |b.colours|
    ensures (forall j: nat :: j < i + 1 ==> MustPass(b, j)) <==> (forall j: nat :: j < i ==> MustPass(b, j)) && MustPass(b, i)
  {
  }

  /** The game is over: rounds used up, detectives stuck or MrX stuck at the end of a rotation or before the first, or MrX captured. */
  predicate GameOverRule(b: Board, endOfRot: bool, notStarted: bool)
    requires Shaped(b) && Black in b.colours
  {
    || ((b.currentRound == |b.rounds| || DetectivesStuck(b) || MovesOf(b, Black) == {}) && (endOfRot || notStarted))
    || Captured(b)
  }

  predicate MrXWinsRule(b: Board, endOfRot: bool)
    requires Shaped(b)
  {
    DetectivesStuck(b) || (b.currentRound == |b.rounds| && !Captured(b) && endOfRot)
  }

  predicate DetectivesWinRule(b: Board)
    requires Shaped(b) && Black in b.colours
  {
    MovesOf(b, Black) == {} || Captured(b)
  }

  function Winners(b: Board, endOfRot: bool): set<Colour>
    requires Shaped(b) && Black in b.colours
  {
    (if MrXWinsRule(b, endOfRot) then {Black} else {})
    + (if DetectivesWinRule(b) then DetectiveColoursOf(b.colours) else {})
  }

  class ScotlandYardModel {
    const rounds: seq<bool>           // true marks a reveal round
    const graph: Graph
    const colours: seq<Colour>        // the players in roster order, MrX first
    var locations: seq<int>           // players' locations; MrX's entry is his start and is never updated
    var tickets: seq<Ledger>
    var currentRound: nat
    var currentPlayer: nat
    var gameOver: bool
    var xLastLocation: int            // MrX's last disclosed location
    var xActualLocation: int          // where MrX really is
    var revealRound: bool
    var gameNotStarted: bool          // no rotation has been started yet
    var spectators: seq<Spectator>
    var winningPlayers: set<Colour>
    var events: seq<Event>            // the spectator callbacks made so far, in order

    /** MrX first and BLACK, every other player a detective, no colour twice. */
    ghost predicate ColoursValid()
    {
      && 2 <= |colours| && colours[0] == Black
      && (forall i :: 1 <= i < |colours| ==> colours[i].IsDetective())
      && Distinct(colours)
    }

    /** One location and one complete ledger per player. */
    ghost predicate RosterShaped()
      reads this`locations, this`tickets
    {
      && |locations| == |colours| && |tickets| == |colours|
      && forall i :: 0 <= i < |tickets| ==> Complete(tickets[i])
    }

    ghost predicate Valid()
      reads this`locations, this`tickets, this`currentPlayer, this`spectators
    {
      && ColoursValid() && RosterShaped()
      && currentPlayer < |colours|
      && |rounds| > 0 && |graph| > 0
      && Distinct(spectators)
    }

    ghost function Untouched(): Snapshot
      reads this`locations, this`tickets, this`currentRound, this`currentPlayer, this`gameOver, this`xLastLocation,
            this`xActualLocation, this`gameNotStarted, this`spectators, this`winningPlayers, this`events
    {
      Snapshot(locations, tickets, currentRound, currentPlayer, gameOver, xLastLocation,
               xActualLocation, gameNotStarted, spectators, winningPlayers, events)
    }

    lemma IndexOfMrX()
      requires ColoursValid()
      ensures Black in colours && IndexOf(colours, Black) == 0
      ensures forall c :: c in colours && c.IsDetective() ==> IndexOf(colours, c) != 0
    {
    }

    // -------------------------------------------------------------------
    // Read-only queries of the move generator and the win evaluator.

    /** The fields validMove and the end-of-game rules read. */
    function CurrentBoard(): Board
      reads this`locations, this`tickets, this`currentRound, this`xActualLocation
    {
      Board(rounds, graph, colours, locations, tickets, currentRound, xActualLocation)
    }

    /** validMove: the moves of the player of colour c. */
    function ValidMove(c: Colour): set<Move>
      reads this`locations, this`tickets, this`currentRound, this`xActualLocation
      requires RosterShaped() && c in colours
    {
      MovesOf(CurrentBoard(), c)
    }

    function DetectiveColours(): set<Colour>
    {
      DetectiveColoursOf(colours)
    }

    /** The game-over rule, with endOfRot saying whether the last detective has just moved. */
    predicate GameOverCondition(endOfRot: bool)
      reads this`locations, this`tickets, this`currentRound, this`xActualLocation, this`gameNotStarted
      requires RosterShaped() && ColoursValid()
    {
      GameOverRule(CurrentBoard(), endOfRot, gameNotStarted)
    }

    /** The colours declared winners by one evaluation of the rules. */
    function NewWinners(endOfRot: bool): set<Colour>
      reads this`locations, this`tickets, this`currentRound, this`xActualLocation
      requires RosterShaped() && ColoursValid()
    {
      Winners(CurrentBoard(), endOfRot)
    }

    // -------------------------------------------------------------------
    // Construction.

    constructor (rounds: seq<bool>, graph: Graph, mrX: PlayerConfiguration,
                 firstDetective: PlayerConfiguration, restOfTheDetectives: seq<PlayerConfiguration>)
      requires CheckConfiguration(rounds, graph, mrX, firstDetective, restOfTheDetectives) == Pass
      ensures Valid()
      ensures this.rounds == rounds && this.graph == graph
      ensures var ps := Roster(mrX, firstDetective, restOfTheDetectives);
        colours == ColoursOf(ps) && locations == LocationsOf(ps) && tickets == TicketsOf(ps)
      ensures currentRound == 0 && currentPlayer == 0 && xLastLocation == 0 && xActualLocation == mrX.location
      ensures !revealRound && gameNotStarted && spectators == [] && events == []
      ensures gameOver == GameOverCondition(false)
      ensures winningPlayers == NewWinners(false)
    {
      var ps := Roster(mrX, firstDetective, restOfTheDetectives);
      ConfigurationGivesPlayers(rounds, graph, mrX, firstDetective, restOfTheDetectives);
      var start := Board(rounds, graph, ColoursOf(ps), LocationsOf(ps), TicketsOf(ps), 0, mrX.location);
      assert Black in start.colours;
      this.rounds := rounds;
      this.graph := graph;
      colours := start.colours;
      locations := start.locations;
      tickets := start.tickets;
      currentRound := 0;
      currentPlayer := 0;
      xLastLocation := 0;
      xActualLocation := mrX.location;
      revealRound := false;
      gameNotStarted := true;
      spectators := [];
      events := [];
      // updateGameOver, evaluated on the starting board before any rotation
      gameOver := GameOverRule(start, false, true);
      winningPlayers := Winners(start, false);
    }

    // -------------------------------------------------------------------
    // Spectator registration.

    method RegisterSpectator(s: Spectator) returns (r: Outcome<ModelError>)
      requires Valid()
      modifies this`spectators
      ensures Valid()
      ensures old(s in spectators) ==> r == Fail(SpectatorRegistered) && spectators == old(spectators)
      ensures old(s !in spectators) ==> r == Pass && spectators == old(spectators) + [s]
    {
      if s in spectators {
        return Fail(SpectatorRegistered);
      }
      DistinctSnoc(spectators, s);
      spectators := spectators + [s];
      r := Pass;
    }

    method UnregisterSpectator(s: Spectator) returns (r: Outcome<ModelError>)
      requires Valid()
      modifies this`spectators
      ensures Valid()
      ensures old(s !in spectators) ==> r == Fail(SpectatorNotRegistered) && spectators == old(spectators)
      ensures old(s in spectators) ==>
        && r == Pass && spectators == Without(old(spectators), s)
        && s !in spectators && |spectators| == |old(spectators)| - 1
    {
      if s !in spectators {
        return Fail(SpectatorNotRegistered);
      }
      spectators := Without(spectators, s);
      r := Pass;
    }

    // -------------------------------------------------------------------
    // Starting a rotation and applying a move.

    /** startRotate: hands MrX his true location and legal moves, unless the game is over. */
    method StartRotate() returns (r: Result<Next, ModelError>)
      requires Valid()
      modifies this`gameNotStarted
      ensures Valid() && !gameNotStarted
      ensures old(gameOver) ==> r == Failure(GameAlreadyOver)
      ensures !old(gameOver) ==> r == Success(AskPlayer(Black, xActualLocation, ValidMove(Black)))
    {
      gameNotStarted := false;
      if gameOver {
        return Failure(GameAlreadyOver);
      }
      IndexOfMrX();
      r := Success(AskPlayer(colours[0], xActualLocation, ValidMove(colours[0])));
    }

    /** visit(TicketMove): a detective moves and hands its ticket to MrX; MrX moves and the round advances. */
    method VisitTicket(m: Move)
      requires Valid() && m.TicketMove? && m.colour in colours
      modifies this`tickets, this`locations, this`xActualLocation, this`currentRound
      ensures Valid()
      ensures CurrentBoard() == AfterVisit(old(CurrentBoard()), m)
    {
      IndexOfMrX();
      var k := IndexOf(colours, m.colour);
      tickets := tickets[k := Spend(tickets[k], m.ticket)];
      if m.colour.IsDetective() {
        locations := locations[k := m.destination];
        tickets := tickets[0 := Credit(tickets[0], m.ticket)];
      } else {
        xActualLocation := m.destination;
        currentRound := currentRound + 1;
      }
    }

    /** visit(DoubleMove): without spectators the tickets and round are settled at once, otherwise leg by leg. */
    method VisitDouble(m: Move) returns (r: Outcome<ModelError>)
      requires Valid() && m.DoubleMove? && m.colour in colours
      modifies this`revealRound, this`xLastLocation, this`xActualLocation, this`currentRound,
               this`tickets, this`events, this`currentPlayer
      ensures Valid()
      ensures spectators != [] && old(currentRound) + 1 >= |rounds| ==> r == Fail(RoundOutOfRange) && unchanged(this)
      ensures !(spectators != [] && old(currentRound) + 1 >= |rounds|) ==>
        && r == Pass && currentPlayer == old(currentPlayer)
        && CurrentBoard() == AfterVisit(old(CurrentBoard()), m)
      ensures spectators == [] ==>
        revealRound == old(revealRound) && xLastLocation == old(xLastLocation) && events == old(events)
      ensures spectators != [] && old(currentRound) + 1 < |rounds| ==>
        var hidden := HiddenDouble(m, old(revealRound), rounds[old(currentRound) + 1], old(xLastLocation));
        && revealRound == rounds[old(currentRound) + 1]
        && xLastLocation == hidden.second.destination
        && events == old(events) + Broadcast(spectators, DoubleNotice(hidden, old(currentRound)))
    {
      var k := IndexOf(colours, m.colour);
      if spectators == [] {
        tickets, currentRound :=
          tickets[k := Spend(Spend(Spend(tickets[k], Double), m.first.ticket), m.second.ticket)], currentRound + 2;
        r := Pass;
      } else {
        r := UpdateDoubleSpec(m, k);
        if r.Fail? {
          return;
        }
      }
      xActualLocation := m.second.destination;
    }

    /** getIntermediateLocation: on a reveal round MrX's location after the leg is disclosed. */
    method GetIntermediateLocation(m: Move, round: bool)
      requires m.TicketMove?
      modifies this`xActualLocation, this`xLastLocation
      ensures round ==> xActualLocation == m.destination && xLastLocation == m.destination
      ensures !round ==> xActualLocation == old(xActualLocation) && xLastLocation == old(xLastLocation)
    {
      if round {
        xActualLocation := m.destination;
        xLastLocation := xActualLocation;
      }
    }

    /** getHiddenDoubleMoves: the double move with each leg's destination as spectators may see it. */
    method GetHiddenDoubleMoves(m: Move) returns (hidden: Move)
      requires m.DoubleMove? && currentRound + 1 < |rounds|
      modifies this`xActualLocation, this`xLastLocation
      ensures hidden == HiddenDouble(m, revealRound, rounds[currentRound + 1], old(xLastLocation))
      ensures xLastLocation == hidden.second.destination
      ensures xActualLocation ==
        if rounds[currentRound + 1] then m.second.destination
        else if revealRound then m.first.destination
        else old(xActualLocation)
    {
      GetIntermediateLocation(m.FirstMove(), revealRound);
      var nextRevealRound := rounds[currentRound + 1];
      var firstMove := TicketMove(m.colour, m.first.ticket, xLastLocation);
      GetIntermediateLocation(m.SecondMove(), nextRevealRound);
      var secondMove := TicketMove(m.colour, m.second.ticket, xLastLocation);
      hidden := DoubleMove(m.colour, Leg(firstMove.ticket, firstMove.destination),
                                     Leg(secondMove.ticket, secondMove.destination));
    }

    method UpdateRevealAndLocation(x: bool, loc: int)
      modifies this`revealRound, this`xLastLocation
      ensures revealRound == x && xLastLocation == loc
    {
      revealRound := x;
      xLastLocation := loc;
    }

    /** announceMove: one leg of a double move, told to spectator s with its round advanced and its ticket spent. */
    method AnnounceMove(hidden: Move, s: Spectator, k: nat, actual: Move, onReveal: bool)
      requires hidden.TicketMove? && actual.TicketMove?
      requires k < |tickets| && actual.ticket in tickets[k]
      modifies this`revealRound, this`xLastLocation, this`xActualLocation, this`currentRound,
               this`tickets, this`events
      ensures revealRound == onReveal && xLastLocation == hidden.destination
      ensures xActualLocation == actual.destination
      ensures currentRound == old(currentRound) + 1
      ensures tickets == old(tickets)[k := Spend(old(tickets)[k], actual.ticket)]
      ensures events == old(events) + [RoundStarted(s, currentRound), MoveMade(s, hidden)]
    {
      UpdateRevealAndLocation(onReveal, hidden.destination);
      xActualLocation := actual.destination;
      currentRound := currentRound + 1;
      tickets := tickets[k := Spend(tickets[k], actual.ticket)];
      events := events + [RoundStarted(s, currentRound), MoveMade(s, hidden)];
    }

    /**
     * updateDoubleSpec: tells every spectator the hidden double move and then
     * each leg in its own round. For each spectator the round and the leg
     * tickets are advanced and then put back, so every spectator sees the
     * same rounds; after the loop the move's tickets are spent and the round
     * advanced by two once.
     */
    method UpdateDoubleSpec(m: Move, k: nat) returns (r: Outcome<ModelError>)
      requires m.DoubleMove? && k < |tickets| && Complete(tickets[k])
      modifies this`revealRound, this`xLastLocation, this`xActualLocation, this`currentRound,
               this`tickets, this`events, this`currentPlayer
      ensures old(currentRound) + 1 >= |rounds| ==> r == Fail(RoundOutOfRange) && unchanged(this)
      ensures old(currentRound) + 1 < |rounds| ==>
        var nextReveal := rounds[old(currentRound) + 1];
        var hidden := HiddenDouble(m, old(revealRound), nextReveal, old(xLastLocation));
        && r == Pass
        && tickets == old(tickets)[k := Spend(Spend(Spend(old(tickets)[k], Double), m.first.ticket), m.second.ticket)]
        && currentRound == old(currentRound) + 2
        && currentPlayer == old(currentPlayer)
        && events == old(events) + Broadcast(spectators, DoubleNotice(hidden, old(currentRound)))
        && (spectators != [] ==>
              && revealRound == nextReveal && xLastLocation == hidden.second.destination
              && xActualLocation == m.second.destination)
        && (spectators == [] ==>
              && revealRound == (if old(currentRound) < 1 then rounds[0] else rounds[old(currentRound) - 1])
              && xLastLocation == old(xLastLocation)
              && xActualLocation == (if nextReveal then m.second.destination
                                     else if old(revealRound) then m.first.destination
                                     else old(xActualLocation)))
    {
      if currentRound + 1 >= |rounds| {
        return Fail(RoundOutOfRange);
      }
      var oldXlastLocation := xLastLocation;
      var nextRevealRound := rounds[currentRound + 1];
      var currentRevealRound := revealRound;
      var prevRevealRound := if currentRound < 1 then rounds[0] else rounds[currentRound - 1];

      var hidden := GetHiddenDoubleMoves(m);
      assert hidden == HiddenDouble(m, old(revealRound), nextRevealRound, old(xLastLocation));
      DoubleTurn(hidden, k, m, prevRevealRound, oldXlastLocation, currentRevealRound, nextRevealRound);
      r := Pass;
    }

    /**
     * The rest of updateDoubleSpec once the hidden legs are known: spend the
     * double ticket, tell every spectator leg by leg with the player counter
     * advanced, then spend both leg tickets, restore the counter and skip two rounds.
     */
    method DoubleTurn(hidden: Move, k: nat, m: Move, prevReveal: bool, lastLocation: int, reveal1: bool, reveal2: bool)
      requires hidden.DoubleMove? && m.DoubleMove?
      requires hidden.first.ticket == m.first.ticket && hidden.second.ticket == m.second.ticket
      requires k < |tickets| && Complete(tickets[k])
      modifies this`revealRound, this`xLastLocation, this`xActualLocation, this`currentRound,
               this`tickets, this`events, this`currentPlayer
      ensures tickets == old(tickets)[k := Spend(Spend(Spend(old(tickets)[k], Double), m.first.ticket), m.second.ticket)]
      ensures currentRound == old(currentRound) + 2 && currentPlayer == old(currentPlayer)
      ensures events == old(events) + Broadcast(spectators, DoubleNotice(hidden, old(currentRound)))
      ensures spectators != [] ==>
        && revealRound == reveal2 && xLastLocation == hidden.second.destination
        && xActualLocation == m.second.destination
      ensures spectators == [] ==>
        revealRound == prevReveal && xLastLocation == lastLocation && xActualLocation == old(xActualLocation)
    {
      var doubleSpent := Spend(tickets[k], Double);
      currentPlayer, revealRound, xLastLocation, tickets :=
        currentPlayer + 1, prevReveal, lastLocation, tickets[k := doubleSpent];
      TellDoubleAll(hidden, k, m, reveal1, reveal2);
      UpdateTwice(old(tickets), k, doubleSpent, Spend(Spend(doubleSpent, m.first.ticket), m.second.ticket));
      tickets, currentPlayer, currentRound :=
        tickets[k := Spend(Spend(tickets[k], hidden.first.ticket), hidden.second.ticket)], currentPlayer - 1, currentRound + 2;
    }

    /** The loop of updateDoubleSpec: every spectator in turn is told the double move leg by leg. */
    method TellDoubleAll(hidden: Move, k: nat, m: Move, reveal1: bool, reveal2: bool)
      requires hidden.DoubleMove? && m.DoubleMove?
      requires hidden.first.ticket == m.first.ticket && hidden.second.ticket == m.second.ticket
      requires k < |tickets| && Complete(tickets[k])
      modifies this`revealRound, this`xLastLocation, this`xActualLocation, this`currentRound,
               this`tickets, this`events
      ensures currentRound == old(currentRound) && tickets == old(tickets)
      ensures events == old(events) + Broadcast(spectators, DoubleNotice(hidden, currentRound))
      ensures spectators == [] ==>
        revealRound == old(revealRound) && xLastLocation == old(xLastLocation) && xActualLocation == old(xActualLocation)
      ensures spectators != [] ==>
        && revealRound == reveal2 && xLastLocation == hidden.second.destination
        && xActualLocation == m.second.destination
    {
      var i := 0;
      while i < |spectators|
        invariant 0 <= i <= |spectators|
        invariant currentRound == old(currentRound) && tickets == old(tickets)
        invariant events == old(events) + Broadcast(spectators[..i], DoubleNotice(hidden, currentRound))
        invariant i == 0 ==>
          revealRound == old(revealRound) && xLastLocation == old(xLastLocation) && xActualLocation == old(xActualLocation)
        invariant i > 0 ==>
          && revealRound == reveal2 && xLastLocation == hidden.second.destination
          && xActualLocation == m.second.destination
      {
        BroadcastStep(old(events), spectators, i, DoubleNotice(hidden, currentRound));
        TellDouble(hidden, spectators[i], k, m, reveal1, reveal2);
        i := i + 1;
      }
      BroadcastAll(spectators, DoubleNotice(hidden, currentRound));
    }

    /**
     * One pass of updateDoubleSpec's loop: spectator s is told the hidden
     * double move and then each leg in its own round; the round and the leg
     * tickets are then put back as they were.
     */
    method TellDouble(hidden: Move, s: Spectator, k: nat, m: Move, reveal1: bool, reveal2: bool)
      requires hidden.DoubleMove? && m.DoubleMove?
      requires hidden.first.ticket == m.first.ticket && hidden.second.ticket == m.second.ticket
      requires k < |tickets| && Complete(tickets[k])
      modifies this`revealRound, this`xLastLocation, this`xActualLocation, this`currentRound,
               this`tickets, this`events
      ensures currentRound == old(currentRound) && tickets == old(tickets)
      ensures events == old(events) + EventsFor(s, DoubleNotice(hidden, currentRound))
      ensures revealRound == reveal2 && xLastLocation == hidden.second.destination
      ensures xActualLocation == m.second.destination
    {
      ghost var spent1 := Spend(tickets[k], m.first.ticket);
      ghost var spent2 := Spend(spent1, m.second.ticket);
      events := events + [MoveMade(s, hidden)];
      AnnounceMove(hidden.FirstMove(), s, k, m.FirstMove(), reveal1);
      AnnounceMove(hidden.SecondMove(), s, k, m.SecondMove(), reveal2);
      SpendCreditCancel(old(tickets)[k], m.first.ticket, m.second.ticket);
      UpdateTwice(old(tickets), k, spent1, spent2);
      UpdateTwice(old(tickets), k, spent2, old(tickets)[k]);
      UpdateSame(old(tickets), k);
      currentRound := currentRound - 2;
      tickets := tickets[k := Credit(Credit(tickets[k], m.first.ticket), m.second.ticket)];
    }

    // -------------------------------------------------------------------
    // Notifications and the win evaluator.

    /** One pass over the spectators telling each of them n. */
    method Notify(n: Notice)
      requires WellFormedNotice(n)
      modifies this`events
      ensures events == old(events) + Broadcast(spectators, n)
    {
      var i := 0;
      while i < |spectators|
        invariant 0 <= i <= |spectators|
        invariant events == old(events) + Broadcast(spectators[..i], n)
      {
        BroadcastStep(old(events), spectators, i, n);
        events := events + EventsFor(spectators[i], n);
        i := i + 1;
      }
      BroadcastAll(spectators, n);
    }

    /** The player who has just moved (currentPlayer has already been advanced). */
    function PreviousPlayer(): (p: nat)
      reads this`currentPlayer
      requires currentPlayer < |colours|
      ensures p < |colours|
    {
      if currentPlayer != 0 then currentPlayer - 1 else |colours| - 1
    }

    /** updateSpectators: tells every spectator the move, concealed if MrX moved on a hidden round. */
    method UpdateSpectators(m: Move) returns (r: Outcome<ModelError>)
      requires Valid()
      modifies this`events
      ensures var moverIsMrX := colours[PreviousPlayer()].IsMrX();
        match Reported(m, moverIsMrX && !revealRound, xLastLocation)
        case None => r == Fail(NotATicketMove) && events == old(events)
        case Some(shown) =>
          r == Pass && events == old(events) + Broadcast(spectators, MoveNotice(moverIsMrX && !gameOver, currentRound, shown))
    {
      var moverIsMrX := colours[PreviousPlayer()].IsMrX();
      var shown := Reported(m, moverIsMrX && !revealRound, xLastLocation);
      if shown.None? {
        return Fail(NotATicketMove);
      }
      Notify(MoveNotice(moverIsMrX && !gameOver, currentRound, shown.value));
      r := Pass;
    }

    /** updateGameOver: evaluates the end of the game and adds the winners. */
    method UpdateGameOver()
      requires Valid()
      modifies this`gameOver, this`winningPlayers
      ensures gameOver == GameOverCondition(currentPlayer == |colours| - 1)
      ensures winningPlayers == old(winningPlayers) + NewWinners(currentPlayer == |colours| - 1)
      ensures Captured(CurrentBoard()) ==> gameOver && DetectiveColours() <= winningPlayers
    {
      var over, winners := Verdict(currentPlayer == |colours| - 1);
      gameOver, winningPlayers := over, winners;
    }

    /** The body of updateGameOver without its two writes: whether the game is over and who has won so far. */
    method Verdict(endOfRot: bool) returns (over: bool, winners: set<Colour>)
      requires Valid()
      ensures over == GameOverCondition(endOfRot)
      ensures winners == winningPlayers + NewWinners(endOfRot)
      ensures Captured(CurrentBoard()) ==> over && DetectiveColours() <= winners
    {
      IndexOfMrX();
      var roundsUsed := currentRound == |rounds|;
      var mrXStuck := ValidMove(colours[0]) == {};
      var stuck := AreDetectivesStuck();
      var captured := IsMrXCaptured();
      ghost var b := CurrentBoard();
      assert mrXStuck == (MovesOf(b, Black) == {});
      assert MrXWinsRule(b, endOfRot) == (stuck || (roundsUsed && !captured && endOfRot));
      assert DetectivesWinRule(b) == (mrXStuck || captured);
      winners := winningPlayers;
      if stuck || (roundsUsed && !captured && endOfRot) {
        winners := winners + {Black};
      }
      if mrXStuck || captured {
        winners := AddDetectiveColours(winners);
      }
      over := ((roundsUsed || stuck || mrXStuck) && (endOfRot || gameNotStarted)) || captured;
    }

    /** areDetectivesStuck: the loop asking whether every detective is offered the pass move. */
    method AreDetectivesStuck() returns (stuck: bool)
      requires Valid()
      ensures stuck == DetectivesStuck(CurrentBoard())
    {
      stuck := true;
      var i := 0;
      while i < |colours|
        invariant 0 <= i <= |colours|
        invariant stuck == forall j: nat :: j < i ==> MustPass(CurrentBoard(), j)
      {
        MustPassStep(CurrentBoard(), i);
        if colours[i].IsDetective() {
          stuck := stuck && PassMove(colours[i]) in ValidMove(colours[i]);
        }
        i := i + 1;
      }
    }

    /** isMrXCaptured: the loop looking for a detective where MrX really is. */
    method IsMrXCaptured() returns (captured: bool)
      requires Valid()
      ensures captured == Captured(CurrentBoard())
    {
      var i := 0;
      while i < |colours|
        invariant 0 <= i <= |colours|
        invariant forall j :: 0 <= j < i ==> !(colours[j].IsDetective() && locations[j] == xActualLocation)
      {
        if colours[i].IsDetective() && locations[i] == xActualLocation {
          return true;
        }
        i := i + 1;
      }
      return false;
    }

    /** The loop adding every detective's colour to the winners. */
    method AddDetectiveColours(w: set<Colour>) returns (r: set<Colour>)
      ensures r == w + DetectiveColours()
    {
      r := w;
      var i := 0;
      while i < |colours|
        invariant 0 <= i <= |colours|
        invariant r == w + DetectiveColoursOf(colours[..i])
      {
        DetectiveColoursStep(colours, i);
        if colours[i].IsDetective() {
          r := r + {colours[i]};
        }
        i := i + 1;
      }
      DetectiveColoursAll(colours);
    }

    /**
     * The callbacks accept makes once the move has been applied, read in the
     * state after it: the move report (skipped for a double move the visit has
     * already announced, unless the game is over), then the end of the
     * rotation or of the game. None when the report fails because a concealed
     * move is not a ticket move.
     */
    ghost function Aftermath(m: Move, moverIsMrX: bool): Option<seq<Event>>
      reads this
    {
      var ending :=
        if gameOver then Broadcast(spectators, GameOverNotice(winningPlayers))
        else if currentPlayer == 0 then Broadcast(spectators, RotationNotice)
        else [];
      if !gameOver && m.DoubleMove? then Some(ending)
      else match Reported(m, moverIsMrX && !revealRound, xLastLocation)
        case None => None
        case Some(shown) => Some(Broadcast(spectators, MoveNotice(moverIsMrX && !gameOver, currentRound, shown)) + ending)
    }

    /** Where control goes after a move, read in the state after it. */
    function NextStep(): Next
      reads this`gameOver, this`currentPlayer, this`locations, this`tickets, this`currentRound, this`xActualLocation
      requires RosterShaped() && currentPlayer < |colours|
    {
      if gameOver then GameEnded
      else if currentPlayer == 0 then RotationDone
      else AskPlayer(colours[currentPlayer], locations[currentPlayer], ValidMove(colours[currentPlayer]))
    }

    /** What accept does after the visit: the end-of-game check, the turn change and the notifications. */
    method AfterMove(m: Move) returns (r: Result<Next, ModelError>)
      requires Valid()
      modifies this`gameOver, this`winningPlayers, this`currentPlayer, this`events
      ensures Valid()
      ensures gameOver == GameOverCondition(old(currentPlayer) == |colours| - 1)
      ensures winningPlayers == old(winningPlayers) + NewWinners(old(currentPlayer) == |colours| - 1)
      ensures Captured(CurrentBoard()) ==> gameOver && DetectiveColours() <= winningPlayers
      ensures currentPlayer == if old(currentPlayer) + 1 < |colours| then old(currentPlayer) + 1 else 0
      ensures var tail := Aftermath(m, old(currentPlayer) == 0);
        && (tail.None? ==> r == Failure(NotATicketMove) && events == old(events))
        && (tail.Some? ==> r == Success(NextStep()) && events == old(events) + tail.value)
      ensures gameNotStarted == old(gameNotStarted)
    {
      UpdateGameOver();
      r := PassTurn(m);
    }

    /** The turn passes to the next player in roster order, then the spectators are told. */
    method PassTurn(m: Move) returns (r: Result<Next, ModelError>)
      requires Valid()
      modifies this`currentPlayer, this`events
      ensures Valid()
      ensures currentPlayer == if old(currentPlayer) + 1 < |colours| then old(currentPlayer) + 1 else 0
      ensures var tail := Aftermath(m, old(currentPlayer) == 0);
        && (tail.None? ==> r == Failure(NotATicketMove) && events == old(events))
        && (tail.Some? ==> r == Success(NextStep()) && events == old(events) + tail.value)
    {
      NextTurn(currentPlayer, |colours|);
      currentPlayer := (currentPlayer + 1) % |colours|;
      assert colours[PreviousPlayer()].IsMrX() == (old(currentPlayer) == 0);
      r := Tell(m);
    }

    /** The notifications after a move, with the mover read off the turn that has just passed. */
    method Tell(m: Move) returns (r: Result<Next, ModelError>)
      requires Valid()
      modifies this`events
      ensures var tail := Aftermath(m, colours[PreviousPlayer()].IsMrX());
        && (tail.None? ==> r == Failure(NotATicketMove) && events == old(events))
        && (tail.Some? ==> r == Success(NextStep()) && events == old(events) + tail.value)
    {
      if !gameOver {
        r := TellContinue(m);
      } else {
        r := TellEnd(m);
      }
    }

    /** The game goes on: the move report (a double move was told during its visit), then the rotation end. */
    method TellContinue(m: Move) returns (r: Result<Next, ModelError>)
      requires Valid() && !gameOver
      modifies this`events
      ensures var tail := Aftermath(m, colours[PreviousPlayer()].IsMrX());
        && (tail.None? ==> r == Failure(NotATicketMove) && events == old(events))
        && (tail.Some? ==> r == Success(NextStep()) && events == old(events) + tail.value)
    {
      ghost var ending := if currentPlayer == 0 then Broadcast(spectators, RotationNotice) else [];
      if !m.DoubleMove? {
        ghost var moverIsMrX := colours[PreviousPlayer()].IsMrX();
        ghost var shown := Reported(m, moverIsMrX && !revealRound, xLastLocation);
        var told := UpdateSpectators(m);
        if told.Fail? {
          return Failure(told.error);
        }
        AppendTwice(old(events), Broadcast(spectators, MoveNotice(moverIsMrX, currentRound, shown.value)), ending);
      }
      r := EndTurn();
    }

    /** The end of a turn while the game goes on: the rotation ends when the turn is back with MrX. */
    method EndTurn() returns (r: Result<Next, ModelError>)
      requires Valid() && !gameOver
      modifies this`events
      ensures r == Success(NextStep())
      ensures events == old(events) + if currentPlayer == 0 then Broadcast(spectators, RotationNotice) else []
    {
      if currentPlayer == 0 {
        Notify(RotationNotice);
        r := Success(RotationDone);
      } else {
        r := Success(AskPlayer(colours[currentPlayer], locations[currentPlayer], ValidMove(colours[currentPlayer])));
      }
    }

    /** The game is over: the move report, then the game-over notice with the winners. */
    method TellEnd(m: Move) returns (r: Result<Next, ModelError>)
      requires Valid() && gameOver
      modifies this`events
      ensures var tail := Aftermath(m, colours[PreviousPlayer()].IsMrX());
        && (tail.None? ==> r == Failure(NotATicketMove) && events == old(events))
        && (tail.Some? ==> r == Success(NextStep()) && events == old(events) + tail.value)
    {
      ghost var moverIsMrX := colours[PreviousPlayer()].IsMrX();
      ghost var shown := Reported(m, moverIsMrX && !revealRound, xLastLocation);
      var told := UpdateSpectators(m);
      if told.Fail? {
        return Failure(told.error);
      }
      Notify(GameOverNotice(winningPlayers));
      AppendTwice(old(events), Broadcast(spectators, MoveNotice(false, currentRound, shown.value)),
                  Broadcast(spectators, GameOverNotice(winningPlayers)));
      r := Success(GameEnded);
    }

    /** accept: validates the move, applies it, evaluates the end of the game, advances the turn and notifies. */
    method Accept(m: Move) returns (r: Result<Next, ModelError>)
      requires Valid()
      modifies this
      ensures Valid()
      // The colour lookup and the round lookup fail before anything changes.
      ensures m.colour !in colours ==> r == Failure(ColourNotInList) && unchanged(this)
      ensures m.colour in colours && old(currentPlayer) == 0 && old(currentRound) >= |rounds| ==>
        r == Failure(RoundOutOfRange) && unchanged(this)
      // An illegal move changes nothing but revealRound.
      ensures old(Screened(m)) && m !in old(ValidMove(m.colour)) ==>
        r == Failure(IllegalMove) && Untouched() == old(Untouched()) && revealRound == old(RevealNow())
      ensures old(Screened(m)) && m in old(ValidMove(m.colour)) && m.DoubleMove? && old(spectators) != []
              && old(currentRound) + 1 >= |rounds| ==>
        r == Failure(RoundOutOfRange) && Untouched() == old(Untouched()) && revealRound == old(RevealNow())
      // A legal move's effect on the board.
      ensures old(Applies(m)) ==> currentPlayer == (if old(currentPlayer) + 1 < |colours| then old(currentPlayer) + 1 else 0) && spectators == old(spectators)
      ensures old(Applies(m)) ==> CurrentBoard() == AfterVisit(old(CurrentBoard()), m)
      // The end of the game, evaluated before the turn passes on.
      ensures old(Applies(m)) ==>
        && gameOver == GameOverCondition(old(currentPlayer) == |colours| - 1)
        && winningPlayers == old(winningPlayers) + NewWinners(old(currentPlayer) == |colours| - 1)
      ensures old(Applies(m)) && Captured(CurrentBoard()) ==> gameOver && DetectiveColours() <= winningPlayers
      // What the spectators are told, and where control goes next.
      ensures old(Applies(m)) ==>
        var tail := Aftermath(m, old(currentPlayer) == 0);
        && (tail.None? ==> r == Failure(NotATicketMove) && events == old(events) + old(Announced(m, RevealNow())))
        && (tail.Some? ==> r == Success(NextStep()) && events == old(events) + old(Announced(m, RevealNow())) + tail.value)
      // The reveal state and MrX's last known location, which the reports above read.
      ensures gameNotStarted == old(gameNotStarted)
      ensures old(Applies(m)) ==>
        revealRound == old(RevealAfter(m, RevealNow())) && xLastLocation == old(LastKnownAfter(m, RevealNow()))
    {
      if m.colour !in colours {
        return Failure(ColourNotInList);
      }
      if colours[currentPlayer].IsMrX() && currentRound >= |rounds| {
        return Failure(RoundOutOfRange);
      }
      r := PlayIfLegal(m);
    }

    /** The part of accept after the colour and round lookups: record the reveal flag, then reject an illegal move or play a legal one. */
    method PlayIfLegal(m: Move) returns (r: Result<Next, ModelError>)
      requires Valid() && Screened(m)
      modifies this
      ensures Valid()
      // An illegal move changes nothing but revealRound.
      ensures old(Screened(m)) && m !in old(ValidMove(m.colour)) ==>
        r == Failure(IllegalMove) && Untouched() == old(Untouched()) && revealRound == old(RevealNow())
      ensures old(Screened(m)) && m in old(ValidMove(m.colour)) && m.DoubleMove? && old(spectators) != []
              && old(currentRound) + 1 >= |rounds| ==>
        r == Failure(RoundOutOfRange) && Untouched() == old(Untouched()) && revealRound == old(RevealNow())
      // A legal move's effect on the board.
      ensures old(Applies(m)) ==> currentPlayer == (if old(currentPlayer) + 1 < |colours| then old(currentPlayer) + 1 else 0) && spectators == old(spectators)
      ensures old(Applies(m)) ==> CurrentBoard() == AfterVisit(old(CurrentBoard()), m)
      // The end of the game, evaluated before the turn passes on.
      ensures old(Applies(m)) ==>
        && gameOver == GameOverCondition(old(currentPlayer) == |colours| - 1)
        && winningPlayers == old(winningPlayers) + NewWinners(old(currentPlayer) == |colours| - 1)
      ensures old(Applies(m)) && Captured(CurrentBoard()) ==> gameOver && DetectiveColours() <= winningPlayers
      // What the spectators are told, and where control goes next.
      ensures old(Applies(m)) ==>
        var tail := Aftermath(m, old(currentPlayer) == 0);
        && (tail.None? ==> r == Failure(NotATicketMove) && events == old(events) + old(Announced(m, RevealNow())))
        && (tail.Some? ==> r == Success(NextStep()) && events == old(events) + old(Announced(m, RevealNow())) + tail.value)
      // The reveal state and MrX's last known location, which the reports above read.
      ensures gameNotStarted == old(gameNotStarted)
      ensures old(Applies(m)) ==>
        revealRound == old(RevealAfter(m, RevealNow())) && xLastLocation == old(LastKnownAfter(m, RevealNow()))
    {
      var validMoves := ValidMove(m.colour);
      revealRound := colours[currentPlayer].IsMrX() && rounds[currentRound];
      if m !in validMoves {
        return Failure(IllegalMove);
      }
      assert old(Announced(m, RevealNow())) == Announced(m, revealRound);
      assert old(RevealAfter(m, RevealNow())) == RevealAfter(m, revealRound);
      assert old(LastKnownAfter(m, RevealNow())) == LastKnownAfter(m, revealRound);
      assert old(CurrentBoard()) == CurrentBoard();
      r := Play(m);
    }

    /** visit: the board change a legal move makes, dispatched on the kind of move. */
    method Visit(m: Move) returns (r: Outcome<ModelError>)
      requires Valid() && m.colour in colours && m in ValidMove(m.colour)
      modifies this`tickets, this`locations, this`xActualLocation, this`currentRound,
               this`revealRound, this`xLastLocation, this`events, this`currentPlayer
      ensures Valid()
      ensures old(Blocked(m)) ==> r == Fail(RoundOutOfRange) && unchanged(this)
      ensures !old(Blocked(m)) ==> r == Pass && currentPlayer == old(currentPlayer)
      ensures !old(Blocked(m)) ==> CurrentBoard() == AfterVisit(old(CurrentBoard()), m)
      ensures !old(Blocked(m)) ==>
        events == old(events) + old(Announced(m, revealRound))
      ensures !old(Blocked(m)) ==>
        revealRound == old(RevealAfter(m, revealRound)) && xLastLocation == old(LastKnownAfter(m, revealRound))
      ensures gameNotStarted == old(gameNotStarted)
    {
      IndexOfMrX();
      ghost var told, revealAfter, lastKnownAfter := Announced(m, revealRound), RevealAfter(m, revealRound), LastKnownAfter(m, revealRound);
      if m.DoubleMove? {
        MovesBelongToMover(MoverContext(CurrentBoard(), m.colour), PositionOf(CurrentBoard(), m.colour), m);
        if spectators != [] && currentRound + 1 < |rounds| {
          assert revealAfter == rounds[currentRound + 1];
          assert lastKnownAfter == HiddenDouble(m, revealRound, rounds[currentRound + 1], xLastLocation).second.destination;
          assert told == Broadcast(spectators, DoubleNotice(HiddenDouble(m, revealRound, rounds[currentRound + 1], xLastLocation), currentRound));
        } else {
          assert told == [] && revealAfter == revealRound && lastKnownAfter == xLastLocation;
        }
        r := VisitDouble(m);
      } else {
        assert told == [] && revealAfter == revealRound && lastKnownAfter == xLastLocation;
        VisitSingle(m);
        r := Pass;
      }
    }

    /** visit of a pass move (nothing) or of a ticket move. */
    method VisitSingle(m: Move)
      requires Valid() && !m.DoubleMove? && m.colour in colours
      modifies this`tickets, this`locations, this`xActualLocation, this`currentRound
      ensures Valid()
      ensures CurrentBoard() == AfterVisit(old(CurrentBoard()), m)
    {
      if m.TicketMove? {
        VisitTicket(m);
      }
    }

    /** The part of accept after the legality check: visit, end-of-game check, turn change, notifications. */
    method Play(m: Move) returns (r: Result<Next, ModelError>)
      requires Valid() && m.colour in colours && m in ValidMove(m.colour)
      modifies this
      ensures Valid()
      ensures old(Blocked(m)) ==> r == Failure(RoundOutOfRange) && unchanged(this)
      ensures !old(Blocked(m)) ==> currentPlayer == (if old(currentPlayer) + 1 < |colours| then old(currentPlayer) + 1 else 0) && spectators == old(spectators)
      ensures !old(Blocked(m)) ==> CurrentBoard() == AfterVisit(old(CurrentBoard()), m)
      ensures !old(Blocked(m)) ==>
        && gameOver == GameOverCondition(old(currentPlayer) == |colours| - 1)
        && winningPlayers == old(winningPlayers) + NewWinners(old(currentPlayer) == |colours| - 1)
      ensures !old(Blocked(m)) && Captured(CurrentBoard()) ==> gameOver && DetectiveColours() <= winningPlayers
      ensures !old(Blocked(m)) ==>
        var tail := Aftermath(m, old(currentPlayer) == 0);
        && (tail.None? ==> r == Failure(NotATicketMove) && events == old(events) + old(Announced(m, revealRound)))
        && (tail.Some? ==> r == Success(NextStep()) && events == old(events) + old(Announced(m, revealRound)) + tail.value)
      ensures gameNotStarted == old(gameNotStarted)
      ensures !old(Blocked(m)) ==>
        revealRound == old(RevealAfter(m, revealRound)) && xLastLocation == old(LastKnownAfter(m, revealRound))
    {
      ghost var revealAfter, lastKnownAfter := RevealAfter(m, revealRound), LastKnownAfter(m, revealRound);
      var visited := Visit(m);
      if visited.Fail? {
        return Failure(visited.error);
      }
      assert !old(Blocked(m));
      assert revealRound == revealAfter && xLastLocation == lastKnownAfter;
      r := AfterMove(m);
    }

    /** What the visit of m tells the spectators: a double move is announced leg by leg, with onReveal as the revealRound flag. */
    ghost function Announced(m: Move, onReveal: bool): seq<Event>
      reads this`spectators, this`currentRound, this`xLastLocation
    {
      if m.DoubleMove? && spectators != [] && currentRound + 1 < |rounds| then
        Broadcast(spectators, DoubleNotice(HiddenDouble(m, onReveal, rounds[currentRound + 1], xLastLocation), currentRound))
      else []
    }

    /** The reveal flag after the visit of m: a double move told to spectators leaves it at the second leg's round. */
    ghost function RevealAfter(m: Move, onReveal: bool): bool
      reads this`spectators, this`currentRound
    {
      if m.DoubleMove? && spectators != [] && currentRound + 1 < |rounds| then rounds[currentRound + 1] else onReveal
    }

    /** MrX's last known location after the visit of m: a double move told to spectators leaves it at the disclosed second leg. */
    ghost function LastKnownAfter(m: Move, onReveal: bool): int
      reads this`spectators, this`currentRound, this`xLastLocation
    {
      if m.DoubleMove? && spectators != [] && currentRound + 1 < |rounds| then
        HiddenDouble(m, onReveal, rounds[currentRound + 1], xLastLocation).second.destination
      else xLastLocation
    }

    /** The move reaches the legality check: its colour is a player's and the round lookup succeeds. */
    ghost predicate Screened(m: Move)
      reads this`currentPlayer, this`currentRound
    {
      m.colour in colours && currentPlayer < |colours| && !(colours[currentPlayer].IsMrX() && currentRound >= |rounds|)
    }

    /** The reveal flag accept records for the current turn. */
    ghost function RevealNow(): bool
      reads this`currentPlayer, this`currentRound
      requires !(currentPlayer < |colours| && colours[currentPlayer].IsMrX() && currentRound >= |rounds|)
    {
      currentPlayer < |colours| && colours[currentPlayer].IsMrX() && rounds[currentRound]
    }

    /** The visit of a double move fails: spectators are told leg by leg and the second leg has no round. */
    ghost predicate Blocked(m: Move)
      reads this`spectators, this`currentRound
    {
      m.DoubleMove? && spectators != [] && currentRound + 1 >= |rounds|
    }

    /** The move is legal and its visit succeeds. */
    ghost predicate Applies(m: Move)
      reads this`currentPlayer, this`currentRound, this`spectators, this`locations, this`tickets, this`xActualLocation
      requires RosterShaped()
    {
      Screened(m) && m in ValidMove(m.colour) && !Blocked(m)
    }

    // -------------------------------------------------------------------
    // Queries.

    /** getPlayerLocation: a detective's location, or MrX's last disclosed one, refreshed on a reveal round. */
    method GetPlayerLocation(c: Colour) returns (r: Option<int>)
      requires Valid()
      modifies this`xLastLocation
      ensures c !in colours ==> r == None && xLastLocation == old(xLastLocation)
      ensures c.IsMrX() ==>
        && xLastLocation == (if revealRound then xActualLocation else old(xLastLocation))
        && r == Some(xLastLocation)
      ensures c in colours && c.IsDetective() ==>
        r == Some(locations[IndexOf(colours, c)]) && xLastLocation == old(xLastLocation)
    {
      IndexOfMrX();
      var i := 0;
      while i < |colours|
        invariant 0 <= i <= |colours|
        invariant forall j :: 0 <= j < i ==> colours[j] != c
      {
        if colours[i] == c {
          if colours[i].IsMrX() {
            if revealRound {
              xLastLocation := xActualLocation;
            }
            return Some(xLastLocation);
          }
          return Some(locations[i]);
        }
        i := i + 1;
      }
      return None;
    }

    /** getPlayerTickets: how many tickets of kind t the player of colour c holds. */
    function GetPlayerTickets(c: Colour, t: Ticket): (r: Option<int>)
      reads this`locations, this`tickets
      requires ColoursValid() && RosterShaped()
      ensures r.Some? <==> c in colours
      ensures forall i :: 0 <= i < |colours| && colours[i] == c ==> r == Some(tickets[i][t])
    {
      DistinctExactly(colours);
      if c !in colours then None else Some(tickets[IndexOf(colours, c)][t])
    }

    /** getCurrentPlayer: the colour of the player whose turn it is. */
    function GetCurrentPlayer(): (c: Colour)
      reads this`currentPlayer
      requires ColoursValid() && currentPlayer < |colours|
      ensures c in colours && (c.IsMrX() <==> currentPlayer == 0)
    {
      colours[currentPlayer]
    }

    function GetCurrentRound(): nat
      reads this`currentRound
    {
      currentRound
    }
  }

  /** The turn after p among n players, written without the remainder (used by PassTurn for line 276). */
  lemma NextTurn(p: nat, n: nat)
    requires p < n
    ensures (p + 1) % n == if p + 1 < n then p + 1 else 0
  {
  }

  /** Appending b and then c is appending b + c (used by TellContinue and TellEnd to join the report and the ending). */
  lemma AppendTwice<T>(a: seq<T>, b: seq<T>, c: seq<T>)
    ensures a + b + c == a + (b + c)
  {
  }

  /** One more spectator told, behind the callbacks already made. */
  lemma BroadcastStep(pre: seq<Event>, ss: seq<Spectator>, i: nat, n: Notice)
    requires WellFormedNotice(n) && i < |ss|
    ensures pre + Broadcast(ss[..i], n) + EventsFor(ss[i], n) == pre + Broadcast(ss[..i + 1], n)
  {
    assert ss[..i + 1][..i] == ss[..i];
  }

  lemma BroadcastAll(ss: seq<Spectator>, n: Notice)
    requires WellFormedNotice(n)
    ensures Broadcast(ss[..|ss|], n) == Broadcast(ss, n)
  {
    assert ss[..|ss|] == ss;
  }

  lemma {:induction false} DistinctSnoc<T>(s: seq<T>, x: T)
    ensures Distinct(s) && x !in s ==> Distinct(s + [x])
  {
    if s != [] && Distinct(s) && x !in s {
      DistinctSnoc(s[1..], x);
      assert (s + [x])[1..] == s[1..] + [x];
    }
  }

  lemma DetectiveColoursStep(cs: seq<Colour>, i: nat)
    requires i < |cs|
    ensures DetectiveColoursOf(cs[..i + 1]) == DetectiveColoursOf(cs[..i]) + (if cs[i].IsDetective() then {cs[i]} else {})
  {
    assert cs[..i + 1][..i] == cs[..i];
  }

  lemma DetectiveColoursAll(cs: seq<Colour>)
    ensures DetectiveColoursOf(cs[..|cs|]) == DetectiveColoursOf(cs)
  {
    assert cs[..|cs|] == cs;
  }
}
