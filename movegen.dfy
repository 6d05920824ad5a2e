/**
 * Legal-move generation (validMove, getTicketMoves, getDoubleMoves).
 * The generator is written as the source computes it, edge by edge; the
 * predicates IsLegalSingle and IsLegalDouble say declaratively which moves
 * are legal, and ValidMovesExactly proves the two agree.
 */
module MoveGen {
  import opened Types

  /** What move generation reads of the game, for one mover. */
  datatype Context = Context(
    graph: Graph,
    detectives: seq<int>,  // the detectives' current locations
    mover: Colour,
    ledger: Ledger,        // the mover's tickets
    noMoreRounds: bool)    // the current round is the last one

  function Pair(c: Context, t1: Ticket, d1: int, t2: Ticket, d2: int): Move
  {
    DoubleMove(c.mover, Leg(t1, d1), Leg(t2, d2))
  }

  /** Single moves along edge e: its own ticket, and SECRET for MrX. */
  function SingleMoves(c: Context, e: Edge): set<Move>
    requires Complete(c.ledger)
  {
    var t := FromTransport(e.transport);
    if e.destination in c.detectives then {}
    else
      (if Has(c.ledger, t) then {TicketMove(c.mover, t, e.destination)} else {})
      + (if c.mover.IsMrX() && Has(c.ledger, Secret) then {TicketMove(c.mover, Secret, e.destination)} else {})
  }

  /** Double moves whose first leg ends at d1 with natural ticket t1 and whose second leg is e2. */
  function DoubleMovesVia(c: Context, t1: Ticket, d1: int, e2: Edge): set<Move>
    requires Complete(c.ledger)
  {
    var t2 := FromTransport(e2.transport);
    var d2 := e2.destination;
    var sameTickets := t1 == t2 && c.ledger[t1] < 2;
    if d1 in c.detectives || d2 in c.detectives || !Has(c.ledger, t2) then {}
    else
      (if Has(c.ledger, Secret) then {Pair(c, t1, d1, Secret, d2), Pair(c, Secret, d1, t2, d2)} else {})
      + (if c.ledger[Secret] >= 2 then {Pair(c, Secret, d1, Secret, d2)} else {})
      + (if !sameTickets then {Pair(c, t1, d1, t2, d2)} else {})
  }

  /** The loop over the edges leaving the first leg's destination. */
  function SecondLegs(c: Context, t1: Ticket, d1: int, es: seq<Edge>): set<Move>
    requires Complete(c.ledger)
  {
    if es == [] then {} else DoubleMovesVia(c, t1, d1, es[0]) + SecondLegs(c, t1, d1, es[1..])
  }

  /** MrX may make double moves: he holds DOUBLE and this is not the last round. */
  predicate DoublesAllowed(c: Context)
    requires Complete(c.ledger)
  {
    c.mover.IsMrX() && Has(c.ledger, Double) && !c.noMoreRounds
  }

  /** Every move that starts along edge e. */
  function TicketMoves(c: Context, e: Edge): set<Move>
    requires Complete(c.ledger)
  {
    SingleMoves(c, e)
    + (if DoublesAllowed(c)
       then SecondLegs(c, FromTransport(e.transport), e.destination, EdgesFrom(c.graph, e.destination))
       else {})
  }

  /** The loop over the edges leaving the mover's position. */
  function AllTicketMoves(c: Context, es: seq<Edge>): set<Move>
    requires Complete(c.ledger)
  {
    if es == [] then {} else TicketMoves(c, es[0]) + AllTicketMoves(c, es[1..])
  }

  /** The legal moves from position; a detective with none gets the pass move alone. */
  function ValidMoves(c: Context, position: int): set<Move>
    requires Complete(c.ledger)
  {
    var moves := AllTicketMoves(c, EdgesFrom(c.graph, position));
    if c.mover.IsDetective() && moves == {} then {PassMove(c.mover)} else moves
  }

  // ---------------------------------------------------------------------
  // The reference definition of a legal move.

  /** Ticket t pays for a single move along e. */
  predicate SingleTicketFits(c: Context, e: Edge, t: Ticket)
    requires Complete(c.ledger)
  {
    || (t == FromTransport(e.transport) && Has(c.ledger, t))
    || (c.mover.IsMrX() && t == Secret && Has(c.ledger, Secret))
  }

  /** Tickets (t1, t2) pay for a double move whose legs' routes need k1 and k2. */
  predicate PairTicketsFit(c: Context, k1: Ticket, k2: Ticket, t1: Ticket, t2: Ticket)
    requires Complete(c.ledger)
  {
    || (Has(c.ledger, Secret) && ((t1 == k1 && t2 == Secret) || (t1 == Secret && t2 == k2)))
    || (c.ledger[Secret] >= 2 && t1 == Secret && t2 == Secret)
    || (t1 == k1 && t2 == k2 && !(k1 == k2 && c.ledger[k1] < 2))
  }

  ghost predicate IsLegalSingle(c: Context, position: int, m: Move)
    requires Complete(c.ledger)
  {
    && m.TicketMove? && m.colour == c.mover
    && m.destination !in c.detectives
    && exists e :: e in EdgesFrom(c.graph, position) && e.destination == m.destination && SingleTicketFits(c, e, m.ticket)
  }

  ghost predicate IsLegalDouble(c: Context, position: int, m: Move)
    requires Complete(c.ledger)
  {
    && m.DoubleMove? && m.colour == c.mover && DoublesAllowed(c)
    && m.first.destination !in c.detectives && m.second.destination !in c.detectives
    && exists e1, e2 ::
         && e1 in EdgesFrom(c.graph, position) && e2 in EdgesFrom(c.graph, e1.destination)
         && e1.destination == m.first.destination && e2.destination == m.second.destination
         && Has(c.ledger, FromTransport(e2.transport))
         && PairTicketsFit(c, FromTransport(e1.transport), FromTransport(e2.transport), m.first.ticket, m.second.ticket)
  }

  /** No ticket move at all is legal from position. */
  ghost predicate Stuck(c: Context, position: int)
    requires Complete(c.ledger)
  {
    forall m :: !IsLegalSingle(c, position, m) && !IsLegalDouble(c, position, m)
  }

  // ---------------------------------------------------------------------
  // The generator agrees with the reference definition.

  lemma SingleMovesMembership(c: Context, e: Edge, m: Move)
    requires Complete(c.ledger)
    ensures m in SingleMoves(c, e) <==>
      && m.TicketMove? && m.colour == c.mover && m.destination == e.destination
      && e.destination !in c.detectives && SingleTicketFits(c, e, m.ticket)
  {
  }

  lemma DoubleMovesViaMembership(c: Context, t1: Ticket, d1: int, e2: Edge, m: Move)
    requires Complete(c.ledger)
    ensures m in DoubleMovesVia(c, t1, d1, e2) <==>
      && m.DoubleMove? && m.colour == c.mover
      && m.first.destination == d1 && m.second.destination == e2.destination
      && d1 !in c.detectives && e2.destination !in c.detectives
      && Has(c.ledger, FromTransport(e2.transport))
      && PairTicketsFit(c, t1, FromTransport(e2.transport), m.first.ticket, m.second.ticket)
  {
  }

  lemma {:induction false} SecondLegsMembership(c: Context, t1: Ticket, d1: int, es: seq<Edge>, m: Move)
    requires Complete(c.ledger)
    ensures m in SecondLegs(c, t1, d1, es) <==> exists e2 :: e2 in es && m in DoubleMovesVia(c, t1, d1, e2)
  {
    if es != [] {
      SecondLegsMembership(c, t1, d1, es[1..], m);
      assert forall e2 :: e2 in es <==> e2 == es[0] || e2 in es[1..];
    }
  }

  lemma {:induction false} AllTicketMovesMembership(c: Context, es: seq<Edge>, m: Move)
    requires Complete(c.ledger)
    ensures m in AllTicketMoves(c, es) <==> exists e :: e in es && m in TicketMoves(c, e)
  {
    if es != [] {
      AllTicketMovesMembership(c, es[1..], m);
      assert forall e :: e in es <==> e == es[0] || e in es[1..];
    }
  }

  /** A move is generated along some edge exactly when the reference definition admits it. */
  lemma AllTicketMovesExactly(c: Context, position: int, m: Move)
    requires Complete(c.ledger)
    ensures m in AllTicketMoves(c, EdgesFrom(c.graph, position)) <==>
      IsLegalSingle(c, position, m) || IsLegalDouble(c, position, m)
  {
    var es := EdgesFrom(c.graph, position);
    AllTicketMovesMembership(c, es, m);
    if m in AllTicketMoves(c, es) {
      var e :| e in es && m in TicketMoves(c, e);
      SingleMovesMembership(c, e, m);
      if m !in SingleMoves(c, e) {
        var t1, d1 := FromTransport(e.transport), e.destination;
        SecondLegsMembership(c, t1, d1, EdgesFrom(c.graph, d1), m);
        var e2 :| e2 in EdgesFrom(c.graph, d1) && m in DoubleMovesVia(c, t1, d1, e2);
        DoubleMovesViaMembership(c, t1, d1, e2, m);
        assert IsLegalDouble(c, position, m);
      }
    }
    if IsLegalSingle(c, position, m) {
      var e :| e in es && e.destination == m.destination && SingleTicketFits(c, e, m.ticket);
      SingleMovesMembership(c, e, m);
      assert m in TicketMoves(c, e);
    }
    if IsLegalDouble(c, position, m) {
      var e1, e2 :|
        && e1 in es && e2 in EdgesFrom(c.graph, e1.destination)
        && e1.destination == m.first.destination && e2.destination == m.second.destination
        && Has(c.ledger, FromTransport(e2.transport))
        && PairTicketsFit(c, FromTransport(e1.transport), FromTransport(e2.transport), m.first.ticket, m.second.ticket);
      var t1, d1 := FromTransport(e1.transport), e1.destination;
      DoubleMovesViaMembership(c, t1, d1, e2, m);
      SecondLegsMembership(c, t1, d1, EdgesFrom(c.graph, d1), m);
      assert m in TicketMoves(c, e1);
    }
  }

  /** validMove returns exactly the legal ticket moves, or the pass move for a stuck detective. */
  lemma ValidMovesExactly(c: Context, position: int, m: Move)
    requires Complete(c.ledger)
    ensures m in ValidMoves(c, position) <==>
      || IsLegalSingle(c, position, m) || IsLegalDouble(c, position, m)
      || (m == PassMove(c.mover) && c.mover.IsDetective() && Stuck(c, position))
  {
    var moves := AllTicketMoves(c, EdgesFrom(c.graph, position));
    AllTicketMovesExactly(c, position, m);
    StuckExactly(c, position);
  }

  /** No legal ticket move exists exactly when the generator's loop produced nothing. */
  lemma StuckExactly(c: Context, position: int)
    requires Complete(c.ledger)
    ensures Stuck(c, position) <==> AllTicketMoves(c, EdgesFrom(c.graph, position)) == {}
  {
    var moves := AllTicketMoves(c, EdgesFrom(c.graph, position));
    if moves != {} {
      var m :| m in moves;
      AllTicketMovesExactly(c, position, m);
    } else {
      forall m ensures !IsLegalSingle(c, position, m) && !IsLegalDouble(c, position, m) {
        AllTicketMovesExactly(c, position, m);
      }
    }
  }

  // ---------------------------------------------------------------------
  // Properties of the generated moves.

  /** Every generated move is the mover's; only detectives pass and only MrX double-moves. */
  lemma MovesBelongToMover(c: Context, position: int, m: Move)
    requires Complete(c.ledger)
    requires m in ValidMoves(c, position)
    ensures m.colour == c.mover
    ensures m.PassMove? ==> c.mover.IsDetective()
    ensures m.DoubleMove? ==> c.mover.IsMrX()
  {
    ValidMovesExactly(c, position, m);
  }

  /** A detective passes exactly when it has no ticket move, and then passing is all it can do. */
  lemma PassExactlyWhenNoTicketMove(c: Context, position: int)
    requires Complete(c.ledger)
    requires c.mover.IsDetective()
    ensures PassMove(c.mover) in ValidMoves(c, position) <==> AllTicketMoves(c, EdgesFrom(c.graph, position)) == {}
    ensures PassMove(c.mover) in ValidMoves(c, position) ==> ValidMoves(c, position) == {PassMove(c.mover)}
    ensures ValidMoves(c, position) != {}
  {
    AllTicketMovesExactly(c, position, PassMove(c.mover));
  }

  /** No single move, and neither leg of a double move, ends where a detective stands. */
  lemma NoMoveEndsOnDetective(c: Context, position: int, m: Move)
    requires Complete(c.ledger)
    requires m in ValidMoves(c, position)
    ensures m.TicketMove? ==> m.destination !in c.detectives
    ensures m.DoubleMove? ==> m.first.destination !in c.detectives && m.second.destination !in c.detectives
  {
    ValidMovesExactly(c, position, m);
  }

  /** What a generated double move needs of the mover, his tickets and the board. */
  lemma DoubleMoveRequirements(c: Context, position: int, m: Move)
    requires Complete(c.ledger)
    requires m in ValidMoves(c, position) && m.DoubleMove?
    ensures c.mover.IsMrX() && Has(c.ledger, Double) && !c.noMoreRounds
    ensures exists e1, e2 ::
      && e1 in EdgesFrom(c.graph, position) && e2 in EdgesFrom(c.graph, e1.destination)
      && e1.destination == m.first.destination && e2.destination == m.second.destination
      && Has(c.ledger, FromTransport(e2.transport))
      && (m.first.ticket == FromTransport(e1.transport) || m.first.ticket == Secret)
      && (m.second.ticket == FromTransport(e2.transport) || m.second.ticket == Secret)
    ensures m.first.ticket == m.second.ticket && m.first.ticket != Secret ==> c.ledger[m.first.ticket] >= 2
    ensures m.first.ticket == Secret && m.second.ticket == Secret ==> Has(c.ledger, Secret)
    ensures m.first.ticket == Secret && m.second.ticket == Secret && c.ledger[Secret] < 2 ==>
      exists e1, e2 ::
        && e1 in EdgesFrom(c.graph, position) && e2 in EdgesFrom(c.graph, e1.destination)
        && e1.destination == m.first.destination && e2.destination == m.second.destination
        && (e1.transport == ByFerry || e2.transport == ByFerry)
  {
    ValidMovesExactly(c, position, m);
  }

  /** The first leg's own ticket is never checked: MrX can be offered a BUS leg with no BUS ticket. */
  lemma FirstLegTicketUnchecked()
    ensures
      var c := Context(map[1 := [Edge(2, ByBus)], 2 := [Edge(3, ByTaxi)]], [], Black,
                       LedgerOf(1, 0, 0, 1, 0), false);
      c.ledger[Bus] == 0 && DoubleMove(Black, Leg(Bus, 2), Leg(Taxi, 3)) in ValidMoves(c, 1)
  {
    var c := Context(map[1 := [Edge(2, ByBus)], 2 := [Edge(3, ByTaxi)]], [], Black,
                     LedgerOf(1, 0, 0, 1, 0), false);
    var m := DoubleMove(Black, Leg(Bus, 2), Leg(Taxi, 3));
    assert m in DoubleMovesVia(c, Bus, 2, Edge(3, ByTaxi));
    assert m in SecondLegs(c, Bus, 2, EdgesFrom(c.graph, 2));
    assert m in TicketMoves(c, Edge(2, ByBus));
    assert m in AllTicketMoves(c, EdgesFrom(c.graph, 1));
  }

  /** A ferry leg lets a single SECRET ticket pay for a SECRET/SECRET double move. */
  lemma FerryLetsOneSecretPayTwice()
    ensures
      var c := Context(map[1 := [Edge(2, ByFerry)], 2 := [Edge(3, ByTaxi)]], [], Black,
                       LedgerOf(1, 0, 0, 1, 1), false);
      c.ledger[Secret] == 1 && DoubleMove(Black, Leg(Secret, 2), Leg(Secret, 3)) in ValidMoves(c, 1)
  {
    var c := Context(map[1 := [Edge(2, ByFerry)], 2 := [Edge(3, ByTaxi)]], [], Black,
                     LedgerOf(1, 0, 0, 1, 1), false);
    var m := DoubleMove(Black, Leg(Secret, 2), Leg(Secret, 3));
    assert m in DoubleMovesVia(c, Secret, 2, Edge(3, ByTaxi));
    assert m in SecondLegs(c, Secret, 2, EdgesFrom(c.graph, 2));
    assert m in TicketMoves(c, Edge(2, ByFerry));
    assert m in AllTicketMoves(c, EdgesFrom(c.graph, 1));
  }
}
