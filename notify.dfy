/**
 * What spectators are told. Callbacks are recorded as events appended to a
 * trace; the concealment helpers compute the move a spectator is shown in
 * place of MrX's true move.
 */
module Notify {
  import opened Wrappers
  import opened Types

  /** A registered spectator, by identity. */
  type Spectator = int

  /** One spectator callback: onRoundStarted, onMoveMade, onRotationComplete, onGameOver. */
  datatype Event =
    | RoundStarted(spectator: Spectator, round: int)
    | MoveMade(spectator: Spectator, move: Move)
    | RotationComplete(spectator: Spectator)
    | GameOver(spectator: Spectator, winners: set<Colour>)

  /** What every spectator is told by one pass over the spectator list. */
  datatype Notice =
    | MoveNotice(roundStarted: bool, round: int, move: Move)
    | DoubleNotice(hidden: Move, round: int)
    | RotationNotice
    | GameOverNotice(winners: set<Colour>)

  predicate WellFormedNotice(n: Notice)
  {
    n.DoubleNotice? ==> n.hidden.DoubleMove?
  }

  /** The callbacks one spectator receives for a notice, in order. */
  function EventsFor(s: Spectator, n: Notice): seq<Event>
    requires WellFormedNotice(n)
  {
    match n
    case MoveNotice(started, round, move) =>
      (if started then [RoundStarted(s, round)] else []) + [MoveMade(s, move)]
    case DoubleNotice(hidden, round) =>
      [MoveMade(s, hidden),
       RoundStarted(s, round + 1), MoveMade(s, hidden.FirstMove()),
       RoundStarted(s, round + 2), MoveMade(s, hidden.SecondMove())]
    case RotationNotice => [RotationComplete(s)]
    case GameOverNotice(winners) => [GameOver(s, winners)]
  }

  /** The callbacks of a loop over the spectators ss, spectator by spectator. */
  function Broadcast(ss: seq<Spectator>, n: Notice): seq<Event>
    requires WellFormedNotice(n)
  {
    if ss == [] then [] else Broadcast(ss[..|ss| - 1], n) + EventsFor(ss[|ss| - 1], n)
  }

  /** A notice gives each spectator at least one callback, all of them addressed to that spectator. */
  lemma EventsForAddressed(s: Spectator, n: Notice)
    requires WellFormedNotice(n)
    ensures |EventsFor(s, n)| > 0
    ensures forall k :: 0 <= k < |EventsFor(s, n)| ==> EventsFor(s, n)[k].spectator == s
  {
  }

  /** Every callback of a broadcast goes to a listed spectator. */
  lemma {:induction false} BroadcastAddressed(ss: seq<Spectator>, n: Notice)
    requires WellFormedNotice(n)
    ensures forall k :: 0 <= k < |Broadcast(ss, n)| ==> Broadcast(ss, n)[k].spectator in ss
  {
    if ss != [] {
      var init, last := ss[..|ss| - 1], ss[|ss| - 1];
      BroadcastAddressed(init, n);
      EventsForAddressed(last, n);
      var b: seq<Event>, r: seq<Event> := Broadcast(init, n), EventsFor(last, n);
      assert Broadcast(ss, n) == b + r;
      assert ss == init + [last];
      forall k | 0 <= k < |b + r| ensures (b + r)[k].spectator in ss {
        if k >= |b| {
          assert (b + r)[k] == r[k - |b|];
        } else {
          assert (b + r)[k] == b[k];
          assert b[k].spectator in init;
        }
      }
    }
  }

  /**
   * Every listed spectator receives all callbacks of the notice, together and
   * in order, right after those of the spectators listed before it.
   */
  lemma {:induction false} BroadcastReaches(ss: seq<Spectator>, n: Notice)
    requires WellFormedNotice(n)
    ensures forall i :: 0 <= i < |ss| ==> Broadcast(ss[..i], n) + EventsFor(ss[i], n) <= Broadcast(ss, n)
  {
    if ss != [] {
      var init, last := ss[..|ss| - 1], ss[|ss| - 1];
      BroadcastReaches(init, n);
      var b, all := Broadcast(init, n), Broadcast(ss, n);
      assert all == b + EventsFor(last, n);
      assert all[..|b|] == b;
      forall i | 0 <= i < |ss| ensures Broadcast(ss[..i], n) + EventsFor(ss[i], n) <= all {
        if i < |init| {
          assert ss[..i] == init[..i] && ss[i] == init[i];
          var p := Broadcast(init[..i], n) + EventsFor(init[i], n);
          assert p <= b;
          assert p == b[..|p|];
          assert p == all[..|p|];
        } else {
          assert ss[..i] == init;
        }
      }
    }
  }

  /** unregisterSpectator's List.remove: the list without the first occurrence of s. */
  function Without(ss: seq<Spectator>, s: Spectator): (r: seq<Spectator>)
    ensures s in ss ==> |r| == |ss| - 1
    ensures s !in ss ==> r == ss
    ensures forall x :: x in r ==> x in ss
    ensures forall x :: x in ss && x != s ==> x in r
    ensures Distinct(ss) ==> Distinct(r) && s !in r
    ensures s in ss ==> r == ss[..IndexOf(ss, s)] + ss[IndexOf(ss, s) + 1..]
  {
    if ss == [] then []
    else if ss[0] == s then ss[1..]
    else
      var r := Without(ss[1..], s);
      assert Distinct(ss) ==> Distinct(ss[1..]) && ss[0] !in ss[1..];
      DistinctCons(ss[0], r);
      assert s in ss ==> [ss[0]] + r == ss[..IndexOf(ss, s)] + ss[IndexOf(ss, s) + 1..] by {
        if s in ss {
          var k := IndexOf(ss[1..], s);
          assert ss[1..][..k] == ss[1..k + 1] && ss[1..][k + 1..] == ss[k + 2..];
          assert [ss[0]] + ss[1..k + 1] == ss[..k + 1];
        }
      }
      [ss[0]] + r
  }

  /** The location spectators are told after a leg: the true one on a reveal round, else the last disclosed one. */
  function Disclosed(destination: int, onReveal: bool, lastKnown: int): int
  {
    if onReveal then destination else lastKnown
  }

  /**
   * The double move as spectators see it: each leg shows its true destination
   * only if its own round is a reveal round, and otherwise the location
   * disclosed before it.
   */
  function HiddenDouble(m: Move, reveal1: bool, reveal2: bool, lastKnown: int): (h: Move)
    requires m.DoubleMove?
    ensures h.DoubleMove? && h.colour == m.colour
    ensures h.first.ticket == m.first.ticket && h.second.ticket == m.second.ticket
  {
    var shown1 := Disclosed(m.first.destination, reveal1, lastKnown);
    var shown2 := Disclosed(m.second.destination, reveal2, shown1);
    DoubleMove(m.colour, Leg(m.first.ticket, shown1), Leg(m.second.ticket, shown2))
  }

  /** A leg on a reveal round shows its true destination; a hidden leg discloses nothing new. */
  lemma HiddenDoubleDiscloses(m: Move, reveal1: bool, reveal2: bool, lastKnown: int)
    requires m.DoubleMove?
    ensures var h := HiddenDouble(m, reveal1, reveal2, lastKnown);
      && h.first.destination in {lastKnown, m.first.destination}
      && h.second.destination in {lastKnown, m.first.destination, m.second.destination}
      && (reveal1 ==> h.first.destination == m.first.destination)
      && (reveal2 ==> h.second.destination == m.second.destination)
      && (!reveal1 ==> h.first.destination == lastKnown)
      && (!reveal2 ==> h.second.destination == h.first.destination)
      && (!reveal1 && !reveal2 ==> h.first.destination == lastKnown && h.second.destination == lastKnown)
      && (reveal1 && reveal2 ==> h == m)
  {
  }

  /**
   * The move updateSpectators reports: with the mover concealed, a ticket move
   * with the last disclosed location for destination, and no move at all (the
   * cast to TicketMove fails) for anything else.
   */
  function Reported(m: Move, concealed: bool, lastKnown: int): (r: Option<Move>)
    ensures !concealed ==> r == Some(m)
    ensures concealed ==> (r.Some? <==> m.TicketMove?)
    ensures concealed && r.Some? ==>
      r.value.TicketMove? && r.value.colour == m.colour && r.value.ticket == m.ticket && r.value.destination == lastKnown
  {
    if !concealed then Some(m)
    else if m.TicketMove? then Some(TicketMove(m.colour, m.ticket, lastKnown))
    else None
  }
}
