/** The game's value types: colours, tickets, transport, the board graph and moves. */
module Types {

  /** The six player colours; BLACK is reserved for MrX. */
  datatype Colour = Black | Blue | Green | Red | White | Yellow {
    predicate IsMrX() { this == Black }
    predicate IsDetective() { !IsMrX() }
  }

  datatype Ticket = Taxi | Bus | Underground | Double | Secret

  /** The transport types that label the board's edges. */
  datatype Transport = ByTaxi | ByBus | ByUnderground | ByFerry

  /** The ticket a route needs: a ferry can only be taken with a SECRET ticket. */
  function FromTransport(t: Transport): Ticket
  {
    match t
    case ByTaxi => Taxi
    case ByBus => Bus
    case ByUnderground => Underground
    case ByFerry => Secret
  }

  /** An outgoing edge of the board: where it leads and by what transport. */
  datatype Edge = Edge(destination: int, transport: Transport)

  /** The board: every node mapped to its outgoing edges. */
  type Graph = map<int, seq<Edge>>

  function EdgesFrom(g: Graph, node: int): seq<Edge>
  {
    if node in g then g[node] else []
  }

  /** A player's ticket counts. */
  type Ledger = map<Ticket, int>

  /** A ledger that has an entry for every ticket kind. */
  ghost predicate Complete(l: Ledger)
  {
    forall t: Ticket :: t in l
  }

  /** The ledger holding the given number of each kind of ticket. */
  function LedgerOf(taxi: int, bus: int, underground: int, double: int, secret: int): (l: Ledger)
    ensures Complete(l)
    ensures l[Taxi] == taxi && l[Bus] == bus && l[Underground] == underground
    ensures l[Double] == double && l[Secret] == secret
  {
    var l := map[Taxi := taxi, Bus := bus, Underground := underground, Double := double, Secret := secret];
    CompleteByKeys(l);
    l
  }

  /** A ledger with an entry for each of the five kinds is complete. */
  lemma CompleteByKeys(l: Ledger)
    requires Taxi in l && Bus in l && Underground in l && Double in l && Secret in l
    ensures Complete(l)
  {
    forall t: Ticket ensures t in l {
      match t
      case Taxi =>
      case Bus =>
      case Underground =>
      case Double =>
      case Secret =>
    }
  }

  /** The player holds a ticket of kind t (a non-zero count). */
  predicate Has(l: Ledger, t: Ticket)
    requires t in l
  {
    l[t] != 0
  }

  /** The ledger after one ticket of kind t is handed in. */
  function Spend(l: Ledger, t: Ticket): (r: Ledger)
    requires t in l
    ensures r.Keys == l.Keys && r[t] == l[t] - 1
    ensures forall u :: u in l && u != t ==> r[u] == l[u]
  {
    l[t := l[t] - 1]
  }

  /** The ledger after one ticket of kind t is received. */
  function Credit(l: Ledger, t: Ticket): (r: Ledger)
    requires t in l
    ensures r.Keys == l.Keys && r[t] == l[t] + 1
    ensures forall u :: u in l && u != t ==> r[u] == l[u]
  {
    l[t := l[t] + 1]
  }

  /**
   * Handing in tickets t and u and then receiving t and u back leaves the
   * ledger as it was (the two leg tickets TellDouble spends and restores).
   */
  lemma SpendCreditCancel(l: Ledger, t: Ticket, u: Ticket)
    requires t in l && u in l
    ensures Credit(Credit(Spend(Spend(l, t), u), t), u) == l
  {
    var r := Credit(Credit(Spend(Spend(l, t), u), t), u);
    assert r.Keys == l.Keys;
    forall x | x in l ensures r[x] == l[x] {
    }
  }

  /** One leg of a double move. */
  datatype Leg = Leg(ticket: Ticket, destination: int)

  /** The closed set of moves: a pass, a single ticket move, or MrX's double move. */
  datatype Move =
    | PassMove(colour: Colour)
    | TicketMove(colour: Colour, ticket: Ticket, destination: int)
    | DoubleMove(colour: Colour, first: Leg, second: Leg)
  {
    function FirstMove(): Move
      requires DoubleMove?
    {
      TicketMove(colour, first.ticket, first.destination)
    }

    function SecondMove(): Move
      requires DoubleMove?
    {
      TicketMove(colour, second.ticket, second.destination)
    }
  }

  /** No element occurs twice in s. */
  ghost predicate Distinct<T>(s: seq<T>)
  {
    |s| == 0 || (s[0] !in s[1..] && Distinct(s[1..]))
  }

  /** Distinct means that no two positions of s hold the same element. */
  lemma {:induction false} DistinctExactly<T>(s: seq<T>)
    ensures Distinct(s) <==> forall i, j :: 0 <= i < j < |s| ==> s[i] != s[j]
  {
    if s != [] {
      DistinctExactly(s[1..]);
      assert forall k :: 0 <= k < |s[1..]| ==> s[1..][k] == s[k + 1];
    }
  }

  /** A new element in front of a repeat-free sequence keeps it repeat-free (used by Notify.Without). */
  lemma DistinctCons<T>(x: T, s: seq<T>)
    ensures x !in s && Distinct(s) ==> Distinct([x] + s)
  {
    assert ([x] + s)[1..] == s;
  }

  /** A second update at the same position overrides the first (used by DoubleTurn and TellDouble on the roster's ledgers). */
  lemma UpdateTwice<T>(s: seq<T>, k: nat, a: T, b: T)
    requires k < |s|
    ensures s[k := a][k := b] == s[k := b]
  {
  }

  /** Writing back the value a position already holds changes nothing (used by TellDouble once MrX's ledger is restored). */
  lemma UpdateSame<T>(s: seq<T>, k: nat)
    requires k < |s|
    ensures s[k := s[k]] == s
  {
  }

  /** The position of the first occurrence of x in s (the roster lookup by colour). */
  function IndexOf<T(==)>(s: seq<T>, x: T): (i: nat)
    requires x in s
    ensures i < |s| && s[i] == x
    ensures forall j :: 0 <= j < i ==> s[j] != x
  {
    if s[0] == x then 0 else 1 + IndexOf(s[1..], x)
  }
}
