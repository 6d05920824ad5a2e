/**
 * The constructor's validation of the round schedule, the board and the
 * player configurations (checkValidMrx, checkValidDetective, checkOverlap,
 * checkDuplicate), with the first failing check reported as the error.
 */
module Config {
  import opened Wrappers
  import opened Types

  /** A player as configured: colour, start location and tickets (the decision strategy is not modelled). */
  datatype PlayerConfiguration = PlayerConfiguration(colour: Colour, location: int, tickets: map<Ticket, int>)

  /** Why construction failed; each is an IllegalArgumentException in the game. */
  datatype ConfigError =
    | EmptyMap
    | EmptyRounds
    | MrXNotBlack
    | MrXMissingTickets
    | DetectiveMissingTickets
    | NotADetective
    | SharedLocation
    | DuplicateColour

  /** The players in roster order: MrX, the first detective, then the rest. */
  function Roster(mrX: PlayerConfiguration, first: PlayerConfiguration, rest: seq<PlayerConfiguration>): seq<PlayerConfiguration>
  {
    [mrX, first] + rest
  }

  function ColoursOf(ps: seq<PlayerConfiguration>): (r: seq<Colour>)
    ensures |r| == |ps| && forall i :: 0 <= i < |ps| ==> r[i] == ps[i].colour
  {
    seq(|ps|, i requires 0 <= i < |ps| => ps[i].colour)
  }

  function LocationsOf(ps: seq<PlayerConfiguration>): (r: seq<int>)
    ensures |r| == |ps| && forall i :: 0 <= i < |ps| ==> r[i] == ps[i].location
  {
    seq(|ps|, i requires 0 <= i < |ps| => ps[i].location)
  }

  function TicketsOf(ps: seq<PlayerConfiguration>): (r: seq<Ledger>)
    ensures |r| == |ps| && forall i :: 0 <= i < |ps| ==> r[i] == ps[i].tickets
  {
    seq(|ps|, i requires 0 <= i < |ps| => ps[i].tickets)
  }

  predicate MissingTickets(p: PlayerConfiguration)
  {
    !(Taxi in p.tickets && Bus in p.tickets && Underground in p.tickets && Double in p.tickets && Secret in p.tickets)
  }

  lemma MissingTicketsExactly(p: PlayerConfiguration)
    ensures !MissingTickets(p) <==> Complete(p.tickets)
  {
    if !MissingTickets(p) {
      CompleteByKeys(p.tickets);
    }
  }

  /** A configuration that cannot be a detective: MrX's colour, or a DOUBLE or SECRET ticket. */
  predicate IsNotDetective(p: PlayerConfiguration)
    requires !MissingTickets(p)
  {
    p.colour.IsMrX() || p.tickets[Double] != 0 || p.tickets[Secret] != 0
  }

  function CheckValidMrX(p: PlayerConfiguration): Outcome<ConfigError>
  {
    if p.colour != Black then Fail(MrXNotBlack)
    else if MissingTickets(p) then Fail(MrXMissingTickets)
    else Pass
  }

  function CheckValidDetective(p: PlayerConfiguration): Outcome<ConfigError>
  {
    if MissingTickets(p) then Fail(DetectiveMissingTickets)
    else if IsNotDetective(p) then Fail(NotADetective)
    else Pass
  }

  /** The loop over the remaining detectives: the first one that fails decides the error. */
  function CheckDetectives(ps: seq<PlayerConfiguration>): Outcome<ConfigError>
  {
    if ps == [] then Pass
    else if CheckValidDetective(ps[0]).Fail? then CheckValidDetective(ps[0])
    else CheckDetectives(ps[1..])
  }

  /** The scan with a set of values seen so far that checkOverlap and checkDuplicate perform. */
  predicate RepeatFree<T(==)>(s: seq<T>, seen: set<T>)
  {
    s == [] || (s[0] !in seen && RepeatFree(s[1..], seen + {s[0]}))
  }

  function CheckOverlap(ps: seq<PlayerConfiguration>): Outcome<ConfigError>
  {
    if RepeatFree(LocationsOf(ps), {}) then Pass else Fail(SharedLocation)
  }

  function CheckDuplicate(ps: seq<PlayerConfiguration>): Outcome<ConfigError>
  {
    if RepeatFree(ColoursOf(ps), {}) then Pass else Fail(DuplicateColour)
  }

  /** The constructor's checks, in the order it makes them. */
  function CheckConfiguration(rounds: seq<bool>, graph: Graph, mrX: PlayerConfiguration,
                              first: PlayerConfiguration, rest: seq<PlayerConfiguration>): Outcome<ConfigError>
  {
    var ps := Roster(mrX, first, rest);
    if |graph| == 0 then Fail(EmptyMap)
    else if |rounds| == 0 then Fail(EmptyRounds)
    else if CheckValidMrX(mrX).Fail? then CheckValidMrX(mrX)
    else if CheckDetectives(rest).Fail? then CheckDetectives(rest)
    else if CheckValidDetective(first).Fail? then CheckValidDetective(first)
    else if CheckOverlap(ps).Fail? then CheckOverlap(ps)
    else CheckDuplicate(ps)
  }

  /** The roster invariant: MrX first and BLACK, detectives without DOUBLE or SECRET, all tickets listed, no shared start or colour. */
  ghost predicate ValidRoster(ps: seq<PlayerConfiguration>)
  {
    && |ps| >= 2
    && ps[0].colour == Black
    && (forall i :: 0 <= i < |ps| ==> Complete(ps[i].tickets))
    && (forall i :: 1 <= i < |ps| ==> ps[i].colour.IsDetective())
    && (forall i :: 1 <= i < |ps| ==> Double in ps[i].tickets && ps[i].tickets[Double] == 0)
    && (forall i :: 1 <= i < |ps| ==> Secret in ps[i].tickets && ps[i].tickets[Secret] == 0)
    && Distinct(LocationsOf(ps))
    && Distinct(ColoursOf(ps))
  }

  lemma {:induction false} RepeatFreeExactly<T>(s: seq<T>, seen: set<T>)
    ensures RepeatFree(s, seen) <==> Distinct(s) && forall i :: 0 <= i < |s| ==> s[i] !in seen
  {
    if s != [] {
      RepeatFreeExactly(s[1..], seen + {s[0]});
      assert forall i :: 1 <= i < |s| ==> s[i] == s[1..][i - 1];
    }
  }

  lemma {:induction false} CheckDetectivesExactly(ps: seq<PlayerConfiguration>)
    ensures CheckDetectives(ps) == Pass <==> forall i :: 0 <= i < |ps| ==> CheckValidDetective(ps[i]) == Pass
    ensures CheckDetectives(ps) == Pass || CheckDetectives(ps) == Fail(DetectiveMissingTickets) || CheckDetectives(ps) == Fail(NotADetective)
  {
    if ps != [] {
      CheckDetectivesExactly(ps[1..]);
      assert forall i :: 1 <= i < |ps| ==> ps[i] == ps[1..][i - 1];
    }
  }

  /** The checks pass only for a non-empty board and schedule and a valid roster. */
  lemma ChecksGiveValidRoster(rounds: seq<bool>, graph: Graph, mrX: PlayerConfiguration,
                              first: PlayerConfiguration, rest: seq<PlayerConfiguration>)
    requires CheckConfiguration(rounds, graph, mrX, first, rest) == Pass
    ensures |graph| > 0 && |rounds| > 0 && ValidRoster(Roster(mrX, first, rest))
  {
    var ps := Roster(mrX, first, rest);
    CheckDetectivesExactly(rest);
    RepeatFreeExactly(LocationsOf(ps), {});
    RepeatFreeExactly(ColoursOf(ps), {});
    MissingTicketsExactly(mrX);
    assert forall i :: 0 <= i < |rest| ==> CheckValidDetective(rest[i]) == Pass;
    forall i | 1 <= i < |ps|
      ensures Complete(ps[i].tickets)
      ensures ps[i].colour.IsDetective() && Double in ps[i].tickets && ps[i].tickets[Double] == 0
      ensures Secret in ps[i].tickets && ps[i].tickets[Secret] == 0
    {
      MissingTicketsExactly(ps[i]);
      if i >= 2 {
        assert ps[i] == rest[i - 2];
        assert CheckValidDetective(rest[i - 2]) == Pass;
      }
    }
  }

  /** A non-empty board and schedule with a valid roster pass every check. */
  lemma ValidRosterPassesChecks(rounds: seq<bool>, graph: Graph, mrX: PlayerConfiguration,
                                first: PlayerConfiguration, rest: seq<PlayerConfiguration>)
    requires |graph| > 0 && |rounds| > 0 && ValidRoster(Roster(mrX, first, rest))
    ensures CheckConfiguration(rounds, graph, mrX, first, rest) == Pass
  {
    var ps := Roster(mrX, first, rest);
    CheckDetectivesExactly(rest);
    RepeatFreeExactly(LocationsOf(ps), {});
    RepeatFreeExactly(ColoursOf(ps), {});
    MissingTicketsExactly(mrX);
    MissingTicketsExactly(first);
    forall i | 0 <= i < |rest| ensures CheckValidDetective(rest[i]) == Pass {
      assert rest[i] == ps[i + 2];
      MissingTicketsExactly(rest[i]);
    }
  }

  /** Construction succeeds exactly when the board and schedule are non-empty and the roster is valid. */
  lemma ConfigurationAccepted(rounds: seq<bool>, graph: Graph, mrX: PlayerConfiguration,
                              first: PlayerConfiguration, rest: seq<PlayerConfiguration>)
    ensures CheckConfiguration(rounds, graph, mrX, first, rest) == Pass <==>
      |graph| > 0 && |rounds| > 0 && ValidRoster(Roster(mrX, first, rest))
    ensures CheckConfiguration(rounds, graph, mrX, first, rest) == Fail(SharedLocation) ==>
      !Distinct(LocationsOf(Roster(mrX, first, rest)))
    ensures CheckConfiguration(rounds, graph, mrX, first, rest) == Fail(DuplicateColour) ==>
      !Distinct(ColoursOf(Roster(mrX, first, rest)))
  {
    var ps := Roster(mrX, first, rest);
    if CheckConfiguration(rounds, graph, mrX, first, rest) == Pass {
      ChecksGiveValidRoster(rounds, graph, mrX, first, rest);
    }
    if |graph| > 0 && |rounds| > 0 && ValidRoster(ps) {
      ValidRosterPassesChecks(rounds, graph, mrX, first, rest);
    }
    CheckDetectivesExactly(rest);
    RepeatFreeExactly(LocationsOf(ps), {});
    RepeatFreeExactly(ColoursOf(ps), {});
  }
}
