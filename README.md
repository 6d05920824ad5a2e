# Scotland Yard rules engine in Dafny

This project models the rules engine of a Scotland Yard board game, the class
`ScotlandYardModel`. One MrX (colour `Black`) is chased by several detectives
over a graph whose edges are labelled with a means of transport. Every player
holds a ledger of tickets (taxi, bus, underground, double, secret). MrX's true
location is hidden except on reveal rounds.

The model follows the source class member by member.

- `types.dfy`: colours, tickets, transports, the graph as a map from node to
  its outgoing edges, ticket ledgers as `map<Ticket, int>`, and moves as one
  datatype (pass, ticket move, double move) with structural equality.
- `movegen.dfy`: the move generator `validMove` / `getTicketMoves` /
  `getDoubleMoves` as pure set-valued functions over a `Context` (what the
  generator reads).
  - Reference predicates `IsLegalSingle`, `IsLegalDouble` and `Stuck` state
    the game's rules independently of the generator's structure.
  - Lemmas prove the generator yields exactly the moves those rules allow.
- `config.dfy`: the constructor's validators as functions returning
  `Pass`/`Fail(error)`.
  - Each exception the constructor throws becomes an error value.
  - A reference predicate `ValidRoster` says what an accepted roster is, and
    an if-and-only-if lemma ties it to the checks.
- `notify.dfy`: spectator callbacks as `Event` values appended to a sequence.
  - `Broadcast` sends one notice to every spectator in registration order.
  - `HiddenDouble` and `Reported` say what a spectator is shown of MrX's
    moves.
- `model.dfy`: the class `ScotlandYardModel`, whose fields are the source's
  mutable fields.
  - `accept`, the `visit` overloads, `updateDoubleSpec`, `announceMove`,
    `updateGameOver`, spectator registration and `getPlayerLocation` are
    methods whose `modifies` frames name the fields they change.
  - The source's loops are `while` loops with invariants:
    - over the spectators in `TellDoubleAll` (the loop of `updateDoubleSpec`)
      and `Notify`;
    - over the players in `AreDetectivesStuck`, `IsMrXCaptured`,
      `AddDetectiveColours` and `GetPlayerLocation`.
  - `AreDetectivesStuck` and `IsMrXCaptured` change nothing and have no
    `modifies` clause.
  - The queries that change nothing (`GetPlayerTickets`, `GetCurrentPlayer`,
    `GetCurrentRound`) are functions with `reads` frames.
  - Each method is proved against module-level specification functions on a
    `Board` value: `AfterVisit`, `GameOverRule` and `Winners`.

The source's quirks are kept as written:

- `Accept` checks the move against the moves of the move's own colour, not
  against the current player's.
- `Accept` assigns `revealRound` before rejecting an illegal move. The
  rejection contract states that `revealRound` changed while nothing else
  visible did.
- The double-move generator never checks that MrX holds the first leg's
  ticket, so a ledger can go negative. Counts are `int`, and
  `FirstLegTicketUnchecked` exhibits such a move.
- A ferry first or second leg lets a SECRET/SECRET double move through with a
  single secret ticket. `FerryLetsOneSecretPayTwice` exhibits it.
- `GetPlayerLocation` for MrX overwrites `xLastLocation` with his true
  location on a reveal round.

Where the source would throw an exception, the model returns an error through
`Outcome`/`Result`:

- an unknown colour;
- a round index past the end of the round list;
- the cast to `TicketMove` when a concealed move that is not a ticket move is
  reported: a double move at the end of the game, or a stuck detective's pass
  move accepted during MrX's hidden turn (`accept` checks the move against its
  own colour's moves);
- an illegal move;
- starting a finished game;
- registering a spectator that is already registered, or unregistering one
  that is not.

The decision hand-off to a player (`makeMove`) becomes a `Next` value naming
the player to be asked, their location and their valid moves.

## Model

| member | source | states |
|---|---|---|
| Types.Spend | src/main/java/uk/ac/bris/cs/scotlandyard/model/ScotlandYardModel.java:237 | handing in a ticket lowers that kind's count by one, keeps the ledger's kinds and leaves every other kind's count alone |
| Types.Credit | src/main/java/uk/ac/bris/cs/scotlandyard/model/ScotlandYardModel.java:240 | receiving a ticket raises that kind's count by one, keeps the ledger's kinds and leaves every other kind's count alone |
| Types.SpendCreditCancel | src/main/java/uk/ac/bris/cs/scotlandyard/model/ScotlandYardModel.java:364-367 | re-adding the two leg tickets after spending them restores the ledger exactly, which is what keeps the spectator loop's tickets stable |
| Types.IndexOf | src/main/java/uk/ac/bris/cs/scotlandyard/model/ScotlandYardModel.java:218-225 | the lookup finds the first player of that colour |
| MoveGen.SingleMoves | src/main/java/uk/ac/bris/cs/scotlandyard/model/ScotlandYardModel.java:149-159 | getTicketMoves' single moves along one edge; characterised by `MoveGen.SingleMovesMembership` |
| MoveGen.DoubleMovesVia | src/main/java/uk/ac/bris/cs/scotlandyard/model/ScotlandYardModel.java:171-190 | getDoubleMoves for one pair of edges; characterised by `MoveGen.DoubleMovesViaMembership` |
| MoveGen.SecondLegs | src/main/java/uk/ac/bris/cs/scotlandyard/model/ScotlandYardModel.java:161-166 | the loop over the edges leaving the first leg's destination; characterised by `MoveGen.SecondLegsMembership` |
| MoveGen.DoublesAllowed | src/main/java/uk/ac/bris/cs/scotlandyard/model/ScotlandYardModel.java:153-161 | double moves only for MrX holding DOUBLE when the current round is not the last; used by `MoveGen.DoubleMoveRequirements` |
| MoveGen.TicketMoves | src/main/java/uk/ac/bris/cs/scotlandyard/model/ScotlandYardModel.java:149-168 | getTicketMoves for one edge: its single moves plus, when allowed, the double moves through its destination; characterised by `MoveGen.AllTicketMovesExactly` |
| MoveGen.AllTicketMoves | src/main/java/uk/ac/bris/cs/scotlandyard/model/ScotlandYardModel.java:197-200 | validMove's loop over the position's edges; characterised by `MoveGen.AllTicketMovesMembership` |
| MoveGen.ValidMoves | src/main/java/uk/ac/bris/cs/scotlandyard/model/ScotlandYardModel.java:193-205 | validMove: the ticket moves, or the pass move alone for a detective with none; characterised by `MoveGen.ValidMovesExactly` and `MoveGen.PassExactlyWhenNoTicketMove` |
| MoveGen.SingleMovesMembership | src/main/java/uk/ac/bris/cs/scotlandyard/model/ScotlandYardModel.java:149-159 | an edge yields a single move exactly when it is the mover's, goes to the edge's destination, that node is free of detectives and the ticket is the edge's (held) or a held SECRET for MrX |
| MoveGen.DoubleMovesViaMembership | src/main/java/uk/ac/bris/cs/scotlandyard/model/ScotlandYardModel.java:171-190 | a pair of edges yields a double move exactly when both destinations are free of detectives, the second leg's ticket is held and the leg tickets are one of the generated combinations |
| MoveGen.SecondLegsMembership | src/main/java/uk/ac/bris/cs/scotlandyard/model/ScotlandYardModel.java:161-166 | the double moves through a first leg are exactly those from some edge out of its destination |
| MoveGen.AllTicketMovesMembership | src/main/java/uk/ac/bris/cs/scotlandyard/model/ScotlandYardModel.java:197-200 | the moves from a position are exactly those some outgoing edge yields |
| MoveGen.AllTicketMovesExactly | src/main/java/uk/ac/bris/cs/scotlandyard/model/ScotlandYardModel.java:149-190 | the generated ticket moves are exactly the legal single and double moves of the reference rules |
| MoveGen.ValidMovesExactly | src/main/java/uk/ac/bris/cs/scotlandyard/model/ScotlandYardModel.java:193-205 | validMove is exactly the legal single and double moves, plus the pass move for a stuck detective |
| MoveGen.StuckExactly | src/main/java/uk/ac/bris/cs/scotlandyard/model/ScotlandYardModel.java:201-204 | a mover is stuck by the reference rules exactly when no ticket move is generated |
| MoveGen.MovesBelongToMover | src/main/java/uk/ac/bris/cs/scotlandyard/model/ScotlandYardModel.java:149-205 | every valid move carries the mover's colour; only detectives pass and only MrX double-moves |
| MoveGen.PassExactlyWhenNoTicketMove | src/main/java/uk/ac/bris/cs/scotlandyard/model/ScotlandYardModel.java:201-204 | for a detective the pass move is offered exactly when no ticket move was generated, it is then the only move, and the move set is never empty |
| MoveGen.NoMoveEndsOnDetective | src/main/java/uk/ac/bris/cs/scotlandyard/model/ScotlandYardModel.java:155-176 | no single move and neither leg of a double move ends on a detective's node |
| MoveGen.DoubleMoveRequirements | src/main/java/uk/ac/bris/cs/scotlandyard/model/ScotlandYardModel.java:153-186 | a double move needs MrX, a DOUBLE ticket, a round that is not the last one, two connected edges, a held ticket for the second edge, leg tickets that match those edges or are SECRET, and two tickets of a kind used for both legs; a SECRET pair with fewer than two secrets needs a ferry edge |
| MoveGen.FirstLegTicketUnchecked | src/main/java/uk/ac/bris/cs/scotlandyard/model/ScotlandYardModel.java:176 | a double move whose first leg needs a bus ticket MrX does not hold is generated |
| MoveGen.FerryLetsOneSecretPayTwice | src/main/java/uk/ac/bris/cs/scotlandyard/model/ScotlandYardModel.java:177-183 | with one SECRET ticket and a ferry first leg, a SECRET/SECRET double move is generated |
| Config.MissingTickets | src/main/java/uk/ac/bris/cs/scotlandyard/model/ScotlandYardModel.java:102-104 | missingTickets: some of the five ticket kinds has no entry; characterised by `Config.MissingTicketsExactly` |
| Config.IsNotDetective | src/main/java/uk/ac/bris/cs/scotlandyard/model/ScotlandYardModel.java:97-99 | isNotDetective: BLACK, or a non-zero DOUBLE or SECRET count |
| Config.CheckValidMrX | src/main/java/uk/ac/bris/cs/scotlandyard/model/ScotlandYardModel.java:69-74 | checkValidMrx: MrX must be BLACK, then must list every ticket kind |
| Config.CheckValidDetective | src/main/java/uk/ac/bris/cs/scotlandyard/model/ScotlandYardModel.java:107-113 | checkValidDetective: every ticket kind listed, then not MrX's colour and no DOUBLE or SECRET ticket |
| Config.CheckDetectives | src/main/java/uk/ac/bris/cs/scotlandyard/model/ScotlandYardModel.java:57-60 | the loop over the remaining detectives, the first failure deciding; characterised by `Config.CheckDetectivesExactly` |
| Config.CheckOverlap | src/main/java/uk/ac/bris/cs/scotlandyard/model/ScotlandYardModel.java:77-84 | checkOverlap: the scan of start locations with a seen-set; characterised by `Config.RepeatFreeExactly` |
| Config.CheckDuplicate | src/main/java/uk/ac/bris/cs/scotlandyard/model/ScotlandYardModel.java:87-94 | checkDuplicate: the scan of colours with a seen-set; characterised by `Config.RepeatFreeExactly` |
| Config.CheckConfiguration | src/main/java/uk/ac/bris/cs/scotlandyard/model/ScotlandYardModel.java:40-66 | the constructor's checks in its order: empty map, empty rounds, MrX, remaining detectives, first detective, overlap, duplicate; characterised by `Config.ConfigurationAccepted` |
| Config.MissingTicketsExactly | src/main/java/uk/ac/bris/cs/scotlandyard/model/ScotlandYardModel.java:102-104 | a configuration misses no ticket kind exactly when its ledger is complete |
| Config.RepeatFreeExactly | src/main/java/uk/ac/bris/cs/scotlandyard/model/ScotlandYardModel.java:77-94 | the set-based duplicate scan passes exactly when the sequence has no repeat and meets none of the seen values |
| Config.CheckDetectivesExactly | src/main/java/uk/ac/bris/cs/scotlandyard/model/ScotlandYardModel.java:57-60 | the detective loop passes exactly when every detective passes checkValidDetective, and fails only with the two detective errors |
| Config.ChecksGiveValidRoster | src/main/java/uk/ac/bris/cs/scotlandyard/model/ScotlandYardModel.java:40-66 | a configuration the constructor accepts has a graph, rounds and a valid roster |
| Config.ValidRosterPassesChecks | src/main/java/uk/ac/bris/cs/scotlandyard/model/ScotlandYardModel.java:40-66 | a valid roster with a graph and rounds is accepted |
| Config.ConfigurationAccepted | src/main/java/uk/ac/bris/cs/scotlandyard/model/ScotlandYardModel.java:40-66 | the constructor accepts exactly the valid rosters, and a shared-location or duplicate-colour error means a repeat among locations or colours |
| Notify.EventsFor | src/main/java/uk/ac/bris/cs/scotlandyard/model/ScotlandYardModel.java:319-323 | one spectator's callbacks for a notice, in order: the round start (on MrX's turn while the game goes on) and the move report of lines 319-323, the move report then two round-start/leg pairs of a double move (lines 360-363 with 387-388), rotation complete (281-282), game over (290-291); EventsForAddressed shows each is non-empty and addressed to that spectator |
| Notify.Broadcast | src/main/java/uk/ac/bris/cs/scotlandyard/model/ScotlandYardModel.java:319-323 | a `for (Spectator s : spectators)` loop: each spectator's callbacks in registration order; BroadcastAddressed and BroadcastReaches characterise it |
| Notify.EventsForAddressed | src/main/java/uk/ac/bris/cs/scotlandyard/model/ScotlandYardModel.java:320-323 | each notice gives a spectator at least one event, all addressed to that spectator |
| Notify.BroadcastAddressed | src/main/java/uk/ac/bris/cs/scotlandyard/model/ScotlandYardModel.java:320-323 | every broadcast event goes to a registered spectator |
| Notify.BroadcastReaches | src/main/java/uk/ac/bris/cs/scotlandyard/model/ScotlandYardModel.java:320-323 | every registered spectator receives all callbacks of the notice, together and in order, right after those of the spectators registered before it |
| Notify.Without | src/main/java/uk/ac/bris/cs/scotlandyard/model/ScotlandYardModel.java:125-130 | removing a registered spectator shortens the list by one, keeps every other spectator and no one else, and keeps the list repeat-free; the result is the list with the first occurrence cut out, the others in their registration order |
| Notify.HiddenDouble | src/main/java/uk/ac/bris/cs/scotlandyard/model/ScotlandYardModel.java:335-344 | the disclosed double move keeps MrX's colour and both leg tickets |
| Notify.HiddenDoubleDiscloses | src/main/java/uk/ac/bris/cs/scotlandyard/model/ScotlandYardModel.java:335-344 | a leg on a reveal round shows its true destination; a leg on a hidden round shows the location disclosed before it; with both rounds revealing the move is shown as made |
| Notify.Reported | src/main/java/uk/ac/bris/cs/scotlandyard/model/ScotlandYardModel.java:316-319 | an unconcealed move is reported as made; a concealed ticket move is reported with its real ticket and the last known location; a concealed non-ticket move is an error |
| Model.DetectiveLocationsOf | src/main/java/uk/ac/bris/cs/scotlandyard/model/ScotlandYardModel.java:208-215 | getDetectiveLocations: the detectives' locations in roster order; characterised by `Model.DetectiveLocationsExactly` |
| Model.AfterVisit | src/main/java/uk/ac/bris/cs/scotlandyard/model/ScotlandYardModel.java:229-262 | the three visit overloads on a board value; its per-case effect is stated by `Model.DetectiveMoveEffect`, `Model.MrXMoveEffect`, `Model.DoubleMoveEffect` and `Model.VisitConservesTickets` |
| Model.MoverContext | src/main/java/uk/ac/bris/cs/scotlandyard/model/ScotlandYardModel.java:193-196 | what validMove reads for a colour: the graph, the detective locations, the colour's tickets and whether this is the last round |
| Model.PositionOf | src/main/java/uk/ac/bris/cs/scotlandyard/model/ScotlandYardModel.java:195 | validMove's start: MrX's true location for MrX, the player's location otherwise |
| Model.MovesOf | src/main/java/uk/ac/bris/cs/scotlandyard/model/ScotlandYardModel.java:193-205 | validMove(c) evaluated on the board; the methods' contracts refer to it through `ValidMove` |
| Model.DetectivesStuck | src/main/java/uk/ac/bris/cs/scotlandyard/model/ScotlandYardModel.java:392-401 | areDetectivesStuck: every detective is offered the pass move; `Model.ScotlandYardModel.AreDetectivesStuck` computes it |
| Model.Captured | src/main/java/uk/ac/bris/cs/scotlandyard/model/ScotlandYardModel.java:404-411 | isMrXCaptured: some detective stands on MrX's true location; `Model.ScotlandYardModel.IsMrXCaptured` computes it |
| Model.GameOverRule | src/main/java/uk/ac/bris/cs/scotlandyard/model/ScotlandYardModel.java:303 | the game-over rule: rounds used, detectives stuck or MrX stuck at the end of a rotation or before the first, or MrX captured; `Model.ScotlandYardModel.UpdateGameOver` establishes it |
| Model.Winners | src/main/java/uk/ac/bris/cs/scotlandyard/model/ScotlandYardModel.java:304-313 | the winners one evaluation adds: MrX if the detectives are stuck or the rounds ran out at the end of a rotation without a capture, every detective if MrX is stuck or captured |
| Model.DetectiveLocationsExactly | src/main/java/uk/ac/bris/cs/scotlandyard/model/ScotlandYardModel.java:208-215 | a node is in the detective locations exactly when some detective stands on it; with MrX first they are the locations after his |
| Model.DetectiveColoursExactly | src/main/java/uk/ac/bris/cs/scotlandyard/model/ScotlandYardModel.java:308-312 | the colours added on a detective win are exactly the detectives in the roster |
| Model.VisitConservesTickets | src/main/java/uk/ac/bris/cs/scotlandyard/model/ScotlandYardModel.java:229-262 | a detective's move keeps the total of each ticket kind in play; MrX's moves remove exactly the tickets they use |
| Model.DetectiveMoveEffect | src/main/java/uk/ac/bris/cs/scotlandyard/model/ScotlandYardModel.java:234-241 | a detective's ticket move takes one ticket from the detective, gives it to MrX, moves the detective, and leaves the round, MrX's location and everyone else alone |
| Model.MrXMoveEffect | src/main/java/uk/ac/bris/cs/scotlandyard/model/ScotlandYardModel.java:242-245 | MrX's ticket move spends one ticket, puts him on the destination and advances the round by exactly one |
| Model.DoubleMoveEffect | src/main/java/uk/ac/bris/cs/scotlandyard/model/ScotlandYardModel.java:249-262 | a double move spends one DOUBLE and one ticket per leg, puts MrX on the final destination and advances the round by exactly two |
| Model.ConfigurationGivesPlayers | src/main/java/uk/ac/bris/cs/scotlandyard/model/ScotlandYardModel.java:46-65 | an accepted configuration gives MrX first, at least one detective, distinct colours and complete ledgers |
| Model.ScotlandYardModel.IndexOfMrX | src/main/java/uk/ac/bris/cs/scotlandyard/model/ScotlandYardModel.java:48 | MrX is found at index 0 and no detective is |
| Model.ScotlandYardModel.constructor | src/main/java/uk/ac/bris/cs/scotlandyard/model/ScotlandYardModel.java:40-66 | the roster is MrX then the first detective then the rest, play starts at round 0 with MrX, and the game-over rule and winners are evaluated on the starting board |
| Model.ScotlandYardModel.RegisterSpectator | src/main/java/uk/ac/bris/cs/scotlandyard/model/ScotlandYardModel.java:117-121 | an already-registered spectator is rejected with the list unchanged; otherwise it is appended |
| Model.ScotlandYardModel.UnregisterSpectator | src/main/java/uk/ac/bris/cs/scotlandyard/model/ScotlandYardModel.java:125-130 | an absent spectator is rejected with the list unchanged; otherwise exactly it is removed (Without), the others keeping their registration order |
| Model.ScotlandYardModel.StartRotate | src/main/java/uk/ac/bris/cs/scotlandyard/model/ScotlandYardModel.java:134-140 | clears gameNotStarted first; a finished game is an error; otherwise MrX is asked at his true location with his valid moves |
| Model.ScotlandYardModel.VisitTicket | src/main/java/uk/ac/bris/cs/scotlandyard/model/ScotlandYardModel.java:234-246 | the board after the visit is AfterVisit of the board before |
| Model.ScotlandYardModel.VisitDouble | src/main/java/uk/ac/bris/cs/scotlandyard/model/ScotlandYardModel.java:249-262 | with or without spectators, the board ends as AfterVisit and the current player is unchanged; with spectators the disclosed double move is broadcast and the reveal state advances to the second round; the one error is the missing next round |
| Model.ScotlandYardModel.GetIntermediateLocation | src/main/java/uk/ac/bris/cs/scotlandyard/model/ScotlandYardModel.java:327-332 | on a revealing round both MrX locations become the leg's destination; otherwise neither changes |
| Model.ScotlandYardModel.GetHiddenDoubleMoves | src/main/java/uk/ac/bris/cs/scotlandyard/model/ScotlandYardModel.java:335-344 | returns the disclosed double move and leaves the last known location at its second destination and the true location at the last revealed leg |
| Model.ScotlandYardModel.UpdateRevealAndLocation | src/main/java/uk/ac/bris/cs/scotlandyard/model/ScotlandYardModel.java:376-379 | sets the reveal flag and the last known location to the given values |
| Model.ScotlandYardModel.AnnounceMove | src/main/java/uk/ac/bris/cs/scotlandyard/model/ScotlandYardModel.java:382-389 | one leg: reveal state and locations updated, round up by one, the leg's ticket spent, round-started then move-made sent to the spectator |
| Model.ScotlandYardModel.UpdateDoubleSpec | src/main/java/uk/ac/bris/cs/scotlandyard/model/ScotlandYardModel.java:347-373 | despite the loop's temporary round and ticket changes, MrX loses exactly a DOUBLE and the two leg tickets, the round rises by two, the player is unchanged and every spectator gets the disclosed legs; a missing next round is an error with nothing changed |
| Model.ScotlandYardModel.DoubleTurn | src/main/java/uk/ac/bris/cs/scotlandyard/model/ScotlandYardModel.java:358-372 | the part after the hidden move is built: the same net ticket, round and player effect and everything broadcast |
| Model.ScotlandYardModel.TellDoubleAll | src/main/java/uk/ac/bris/cs/scotlandyard/model/ScotlandYardModel.java:360-368 | the spectator loop leaves round and tickets as they were and appends each spectator's events in order |
| Model.ScotlandYardModel.TellDouble | src/main/java/uk/ac/bris/cs/scotlandyard/model/ScotlandYardModel.java:361-367 | one iteration restores round and tickets and leaves the reveal state at the second leg |
| Model.ScotlandYardModel.Notify | src/main/java/uk/ac/bris/cs/scotlandyard/model/ScotlandYardModel.java:280-282 | a loop over the spectators appends exactly the broadcast of the notice |
| Model.ScotlandYardModel.PreviousPlayer | src/main/java/uk/ac/bris/cs/scotlandyard/model/ScotlandYardModel.java:317 | the player before the current one, wrapping to the last, is in range |
| Model.ScotlandYardModel.UpdateSpectators | src/main/java/uk/ac/bris/cs/scotlandyard/model/ScotlandYardModel.java:316-324 | broadcasts the reported move, with a round start when the mover was MrX and the game goes on; MrX's concealed move shows his ticket and last known location |
| Model.ScotlandYardModel.UpdateGameOver | src/main/java/uk/ac/bris/cs/scotlandyard/model/ScotlandYardModel.java:297-314 | gameOver is exactly the game-over rule; winners are only added to; a capture ends the game with every detective a winner |
| Model.ScotlandYardModel.Verdict | src/main/java/uk/ac/bris/cs/scotlandyard/model/ScotlandYardModel.java:298-313 | computes the game-over rule and the grown winner set without changing state |
| Model.ScotlandYardModel.AreDetectivesStuck | src/main/java/uk/ac/bris/cs/scotlandyard/model/ScotlandYardModel.java:392-401 | the loop's result is exactly whether every detective is offered the pass move |
| Model.ScotlandYardModel.IsMrXCaptured | src/main/java/uk/ac/bris/cs/scotlandyard/model/ScotlandYardModel.java:404-411 | the loop's result is exactly whether some detective stands on MrX's true location |
| Model.ScotlandYardModel.AddDetectiveColours | src/main/java/uk/ac/bris/cs/scotlandyard/model/ScotlandYardModel.java:308-312 | the loop adds exactly the detective colours to the winners |
| Model.ScotlandYardModel.AfterMove | src/main/java/uk/ac/bris/cs/scotlandyard/model/ScotlandYardModel.java:275-293 | game-over evaluation, the turn passing to (currentPlayer + 1) mod the player count, then the notifications |
| Model.ScotlandYardModel.PassTurn | src/main/java/uk/ac/bris/cs/scotlandyard/model/ScotlandYardModel.java:276-293 | the turn passes to the next player, wrapping to MrX, then the notifications |
| Model.ScotlandYardModel.Aftermath | src/main/java/uk/ac/bris/cs/scotlandyard/model/ScotlandYardModel.java:277-293 | accept's notification tail read in the state after the move: no report for a double move unless the game is over, then rotation complete at player 0 or game over with the winners; None when the concealed report's cast fails; AfterMove and Tell append exactly these events |
| Model.ScotlandYardModel.NextStep | src/main/java/uk/ac/bris/cs/scotlandyard/model/ScotlandYardModel.java:280-286 | where control goes after a move: the game ended, the rotation complete at player 0, or takeMove (lines 143-146) asking the current player with its location and valid moves; AfterMove and EndTurn return it |
| Model.ScotlandYardModel.Tell | src/main/java/uk/ac/bris/cs/scotlandyard/model/ScotlandYardModel.java:277-293 | the events and next step after a move, for a game that goes on or has ended |
| Model.ScotlandYardModel.TellContinue | src/main/java/uk/ac/bris/cs/scotlandyard/model/ScotlandYardModel.java:277-286 | a non-double move is reported, then the rotation end or the next player's request |
| Model.ScotlandYardModel.EndTurn | src/main/java/uk/ac/bris/cs/scotlandyard/model/ScotlandYardModel.java:279-285 | back at MrX the rotation-complete notice is sent; otherwise the next player is asked |
| Model.ScotlandYardModel.TellEnd | src/main/java/uk/ac/bris/cs/scotlandyard/model/ScotlandYardModel.java:287-292 | the move is reported, then the game-over notice with the winners |
| Model.ScotlandYardModel.RevealNow | src/main/java/uk/ac/bris/cs/scotlandyard/model/ScotlandYardModel.java:269 | the reveal flag accept records: the current player is MrX and the current round reveals; an illegal move or a missing round leaves revealRound at it in PlayIfLegal and Accept, and a legal move's visit starts from it |
| Model.ScotlandYardModel.Announced | src/main/java/uk/ac/bris/cs/scotlandyard/model/ScotlandYardModel.java:249-262 | what the visit tells spectators: nothing for a move other than a double or with no spectators, otherwise the broadcast of the disclosed double leg by leg; Visit, Play, PlayIfLegal and Accept append exactly it |
| Model.ScotlandYardModel.RevealAfter | src/main/java/uk/ac/bris/cs/scotlandyard/model/ScotlandYardModel.java:346-384 | the reveal flag after the visit: a double move told to spectators leaves it at the second leg's round (announceMove's last updateRevealAndLocation), any other visit leaves it alone; Visit, Play and Accept end in it |
| Model.ScotlandYardModel.LastKnownAfter | src/main/java/uk/ac/bris/cs/scotlandyard/model/ScotlandYardModel.java:346-384 | MrX's last known location after the visit: a double move told to spectators leaves it at the disclosed second destination, any other visit leaves it alone; Visit, Play and Accept end in it |
| Model.ScotlandYardModel.Accept | src/main/java/uk/ac/bris/cs/scotlandyard/model/ScotlandYardModel.java:266-294 | an unknown colour or a missing round changes nothing; an illegal move changes only revealRound; a legal move gives the AfterVisit board, the next player, the game-over rule, winners that only grow, the events in order, and the new reveal flag and last known location; gameNotStarted is untouched |
| Model.ScotlandYardModel.PlayIfLegal | src/main/java/uk/ac/bris/cs/scotlandyard/model/ScotlandYardModel.java:268-294 | revealRound set first, then the legality test against the move's own colour, then the move played, with the same outcome as accept's legal path |
| Model.ScotlandYardModel.Visit | src/main/java/uk/ac/bris/cs/scotlandyard/model/ScotlandYardModel.java:229-262 | dispatch on the move: the board ends as AfterVisit; a double move's disclosures are broadcast and leave the reveal flag and last known location at its second leg; any other move leaves them alone |
| Model.ScotlandYardModel.VisitSingle | src/main/java/uk/ac/bris/cs/scotlandyard/model/ScotlandYardModel.java:229-246 | visit of a pass move (nothing) or a ticket move: the board ends as AfterVisit |
| Model.ScotlandYardModel.Play | src/main/java/uk/ac/bris/cs/scotlandyard/model/ScotlandYardModel.java:274-293 | a legal move visited, then the game-over evaluation, turn change and notifications; the reveal flag and last known location as the visit leaves them; gameNotStarted untouched |
| Model.ScotlandYardModel.GetPlayerLocation | src/main/java/uk/ac/bris/cs/scotlandyard/model/ScotlandYardModel.java:435-449 | for MrX, returns the last known location after refreshing it from his true location on a reveal round; for a detective, their location; for an unknown colour, nothing |
| Model.ScotlandYardModel.GetPlayerTickets | src/main/java/uk/ac/bris/cs/scotlandyard/model/ScotlandYardModel.java:453-458 | a count exactly for a colour in the game, and it is that player's count of the ticket |
| Model.ScotlandYardModel.GetCurrentPlayer | src/main/java/uk/ac/bris/cs/scotlandyard/model/ScotlandYardModel.java:468-470 | the current player's colour, which is MrX exactly at index 0 |

`GetCurrentRound` (source lines 474-476) is a plain read of `currentRound` and
carries no contract.

## Left out

- The player hand-off `makeMove` and the re-entrant `accept`, `takeMove`,
  `makeMove` chain are not modelled. They are calls into player code that is
  not part of this model. `Accept` is called once per turn with the chosen
  move, and it returns the request the source would hand to the next player.
- The bodies of the spectator callbacks are not modelled, because they are
  external. Each call becomes an `Event` appended to `events`.
- The graph library is not modelled; the graph is a map from node to a
  sequence of (destination, transport) edges. A node missing from the map has
  no edges.
- `Ticket.fromTransport` is not part of this model. `FromTransport` maps taxi,
  bus and underground one-to-one and the ferry to SECRET.
- `ScotlandYardPlayer` is not part of this model. Its ticket map is a
  `map<Ticket, int>`, and `hasTickets` is taken to mean a non-zero count.
- Java `int` overflow is not modelled: counts, rounds and locations are
  unbounded integers. No reachable game comes near 32 bits.
- The `requireNonNull` checks are left out, because Dafny values cannot be
  null.
- The unmodifiable-view getters (`getGraph`, `getRounds`, `getSpectators`,
  `getPlayers`, `getWinningPlayers`, `isGameOver`) are left out, because they
  are plain reads of fields.
- Model.ScotlandYardModel.constructor: it evaluates updateGameOver's rule on
  the starting board as the functions `GameOverRule` and `Winners`, instead
  of calling the `UpdateGameOver` method. The result is the same; the
  difference is only that the object is not yet built at that point.
- Model.ScotlandYardModel.UpdateGameOver: calls `areDetectivesStuck` and
  `isMrXCaptured` once each and reuses the results. The source calls them
  more than once: `areDetectivesStuck` at lines 303-304, `isMrXCaptured` at
  lines 303, 304 and 307. No state changes between the calls, so the results
  agree.
- Model.ScotlandYardModel.UpdateDoubleSpec: the body is split across
  `DoubleTurn`, `TellDoubleAll` and `TellDouble`, which make the source's
  writes in the source's order. The contract states the net effect after
  the loop, not the intermediate values inside one iteration.
- Model.ScotlandYardModel.AfterMove: states `(currentPlayer + 1) %
  players.size()` as "the next index, or 0 after the last". The two are
  equal for every index in range, and `NextTurn` proves it.
- MoveGen.DoubleMoveRequirements: it does not claim that a SECRET/SECRET
  double move needs two SECRET tickets, because the source does not ensure
  it. With a ferry edge, one SECRET ticket suffices, as
  `MoveGen.FerryLetsOneSecretPayTwice` shows.
- The game-level turn sequence (`startRotate`, then alternating `accept`
  calls) is not stated as a single trace property. It is stated per call
  through `Valid`, which every method keeps.
