/**
 * The rules the game engine applies to its players: the dice move, landing resolution (card draw,
 * rent, purchase offer), rent amounts and card effects. Everything here is a function of the player
 * list and the board; the engine's mutable state and its handlers are in GameState and GameHandler.
 */
module GameRules {
  import opened Wrappers
  import opened Board
  import opened Cards

  /** A connection identity (the socket id). */
  type SocketId = string

  /** A player record: lobby identity plus position, balance and the list of owned tile indices. */
  datatype Player = Player(id: SocketId, name: string, position: int, balance: int, properties: seq<int>)

  const BoardSize: int := 40
  const Salary: int := 200
  const StartBalance: int := 1500
  const JailIndex: int := 10
  const RailroadRate: int := 25
  /** The railroad positions hard-coded by the NEAREST_RAILROAD effect. */
  const Railroads: seq<int> := [5, 15, 25, 35]

  /** JavaScript's `a % b` for b > 0: the remainder takes the sign of the dividend. */
  function JsRem(a: int, b: int): (r: int)
    requires b > 0
    ensures a >= 0 ==> r == a % b
    ensures a < 0 ==> -b < r <= 0 && (a - r) % b == 0
  {
    if a >= 0 then a % b else NegativeRem(a, b); -((-a) % b)
  }

  /** For a negative dividend, truncation differs from the dividend by a multiple of b. */
  lemma NegativeRem(a: int, b: int)
    requires a < 0 && b > 0
    ensures (a + (-a) % b) % b == 0
  {
    var q := (-a) / b;
    assert -a == q * b + (-a) % b;
    ModUnique(a + (-a) % b, b, -q, 0);
  }

  /** Euclidean division is unique: any decomposition x = q·n + r with 0 <= r < n gives the remainder. */
  lemma ModUnique(x: int, n: int, q: int, r: int)
    requires n > 0 && x == q * n + r && 0 <= r < n
    ensures x % n == r
  {
    var d := q - x / n;
    assert x == (x / n) * n + x % n;
    assert d * n == x % n - r;
  }

  // ----- searches over the player list -----

  /** `players.find(p => p.id === id)`, as an index. */
  function FindPlayer(players: seq<Player>, id: SocketId): (r: Option<nat>)
    ensures r.Some? ==> r.value < |players| && players[r.value].id == id
    ensures r.Some? ==> forall j :: 0 <= j < r.value ==> players[j].id != id
    ensures r.None? <==> forall j :: 0 <= j < |players| ==> players[j].id != id
  {
    if players == [] then None
    else if players[0].id == id then Some(0)
    else match FindPlayer(players[1..], id)
      case None => None
      case Some(j) => Some(j + 1)
  }

  /** `players.find(p => p.properties.includes(pos))`, as an index: the first player owning pos. */
  function OwnerOf(players: seq<Player>, pos: int): (r: Option<nat>)
    ensures r.Some? ==> r.value < |players| && pos in players[r.value].properties
    ensures r.Some? ==> forall j :: 0 <= j < r.value ==> pos !in players[j].properties
    ensures r.None? <==> forall j :: 0 <= j < |players| ==> pos !in players[j].properties
  {
    if players == [] then None
    else if pos in players[0].properties then Some(0)
    else match OwnerOf(players[1..], pos)
      case None => None
      case Some(j) => Some(j + 1)
  }

  /** The tile at position x on the board is of the given kind. */
  predicate IsKind(board: seq<Tile>, x: int, kind: TileType) {
    var t := FindTile(board, x);
    t.Some? && t.value.kind == kind
  }

  /** The counting `reduce`: how many entries of props are tiles of the given kind. */
  function CountKind(board: seq<Tile>, props: seq<int>, kind: TileType): (n: nat)
    ensures n <= |props|
  {
    if props == [] then 0
    else CountKind(board, props[..|props| - 1], kind) + (if IsKind(board, props[|props| - 1], kind) then 1 else 0)
  }

  // ----- rent -----

  /** `tile.rent || 0`. */
  function BaseRent(tile: Tile): int {
    match tile.rent
    case None => 0
    case Some(r) => r
  }

  /** The rent the owner of `tile` charges, given the dice total of the move that landed there. */
  function RentFor(board: seq<Tile>, tile: Tile, owner: Player, diceTotal: int): (r: int)
    ensures tile.kind == Railroad && CountKind(board, owner.properties, Railroad) > 0 ==>
      r == RailroadRate * CountKind(board, owner.properties, Railroad)
    ensures tile.kind == Utility && CountKind(board, owner.properties, Utility) == 2 ==> r == 10 * diceTotal
    ensures tile.kind == Utility && CountKind(board, owner.properties, Utility) != 2 ==> r == 4 * diceTotal
    ensures tile.kind != Railroad && tile.kind != Utility ==> r == BaseRent(tile)
  {
    if tile.kind == Railroad then
      var n := CountKind(board, owner.properties, Railroad);
      if n > 0 then RailroadRate * n else BaseRent(tile)
    else if tile.kind == Utility then
      var multiplier := if CountKind(board, owner.properties, Utility) == 2 then 10 else 4;
      diceTotal * multiplier
    else BaseRent(tile)
  }

  // ----- landing -----

  /** What a landing resolves to. */
  datatype Landing =
    | NoTile                              // no tile at the position: nothing happens
    | DrawCard(card: Card)                // a card is drawn; its effect is applied later
    | PayRent(owner: nat, amount: int)    // the lander pays `amount` to players[owner]
    | OfferBuy(tile: int, price: int)     // the lander is told it may buy the tile
    | NoAction

  predicate IsCardTile(kind: TileType) {
    kind == Chance || kind == Community
  }

  function DeckFor(kind: TileType): (deck: seq<Card>)
    ensures |deck| > 0
  {
    if kind == Chance then ChanceDeck else CommunityDeck
  }

  /**
   * `handleLanding` for players[pi] at its current position. A replay landing (after a card move)
   * never draws; `draw` chooses the card (taken modulo the deck size) on a primary landing.
   */
  function ResolveLanding(board: seq<Tile>, players: seq<Player>, pi: nat, isReplay: bool,
                          diceTotal: int, draw: nat): (r: Landing)
    requires pi < |players|
    ensures r.NoTile? <==> FindTile(board, players[pi].position).None?
    ensures r.DrawCard? <==> !isReplay && FindTile(board, players[pi].position).Some? &&
                             IsCardTile(FindTile(board, players[pi].position).value.kind)
    ensures r.DrawCard? ==> r.card in DeckFor(FindTile(board, players[pi].position).value.kind)
    ensures r.PayRent? ==> (r.owner < |players| && r.owner != pi &&
      players[pi].position in players[r.owner].properties && players[r.owner].id != players[pi].id &&
      OwnerOf(players, players[pi].position) == Some(r.owner) &&
      r.amount == RentFor(board, FindTile(board, players[pi].position).value, players[r.owner], diceTotal))
    ensures r.OfferBuy? ==> (OwnerOf(players, players[pi].position).None? &&
      r.tile == players[pi].position && FindTile(board, r.tile).Some? &&
      FindTile(board, r.tile).value.price == Some(r.price) && players[pi].balance >= r.price)
  {
    var pos := players[pi].position;
    match FindTile(board, pos)
    case None => NoTile
    case Some(tile) =>
      if IsCardTile(tile.kind) && !isReplay then
        var deck := DeckFor(tile.kind);
        DrawCard(deck[draw % |deck|])
      else
        match OwnerOf(players, pos)
        case Some(o) =>
          if players[o].id != players[pi].id then PayRent(o, RentFor(board, tile, players[o], diceTotal))
          else NoAction
        case None =>
          if tile.price.Some? && players[pi].balance >= tile.price.value then OfferBuy(tile.index, tile.price.value)
          else NoAction
  }

  /** The rent and offer outcomes happen exactly when their conditions hold. */
  lemma LandingCases(board: seq<Tile>, players: seq<Player>, pi: nat, isReplay: bool, diceTotal: int, draw: nat)
    requires pi < |players|
    ensures var r := ResolveLanding(board, players, pi, isReplay, diceTotal, draw);
      var t := FindTile(board, players[pi].position);
      var o := OwnerOf(players, players[pi].position);
      r.PayRent? <==> (t.Some? && !(IsCardTile(t.value.kind) && !isReplay) && o.Some? &&
                       players[o.value].id != players[pi].id)
    ensures var r := ResolveLanding(board, players, pi, isReplay, diceTotal, draw);
      var t := FindTile(board, players[pi].position);
      var o := OwnerOf(players, players[pi].position);
      r.OfferBuy? <==> (t.Some? && !(IsCardTile(t.value.kind) && !isReplay) && o.None? &&
                        t.value.price.Some? && players[pi].balance >= t.value.price.value)
  {
  }

  /** The balance transfer a landing causes: the lander pays the rent to the owner. Money moves
      between two players only, so the sum of all balances is unchanged. */
  function Settle(players: seq<Player>, pi: nat, l: Landing): (ps: seq<Player>)
    requires pi < |players|
    requires l.PayRent? ==> l.owner < |players|
    ensures |ps| == |players|
    ensures Total(ps) == Total(players)
  {
    match l
    case PayRent(o, amount) =>
      RentConserves(players, pi, o, amount);
      Credit(Credit(players, pi, -amount), o, amount)
    case _ => players
  }

  /** players[i].balance += d. */
  function Credit(players: seq<Player>, i: nat, d: int): (ps: seq<Player>)
    requires i < |players|
    ensures |ps| == |players|
  {
    players[i := players[i].(balance := players[i].balance + d)]
  }

  /** The sum of all balances. */
  function Total(players: seq<Player>): int {
    if |players| == 0 then 0 else Total(players[..|players| - 1]) + players[|players| - 1].balance
  }

  /** Changing one balance by d changes the total by d. */
  lemma {:induction false} TotalShift(players: seq<Player>, i: nat, d: int)
    requires i < |players|
    ensures Total(Credit(players, i, d)) == Total(players) + d
    decreases |players|
  {
    var q := Credit(players, i, d);
    var n := |players|;
    assert q[..n - 1] == if i < n - 1 then Credit(players[..n - 1], i, d) else players[..n - 1];
    if i < n - 1 {
      TotalShift(players[..n - 1], i, d);
    }
  }

  /** Paying rent moves money between two players: the sum of all balances is unchanged. */
  lemma RentConserves(players: seq<Player>, pi: nat, o: nat, amount: int)
    requires pi < |players| && o < |players|
    ensures Total(Credit(Credit(players, pi, -amount), o, amount)) == Total(players)
  {
    TotalShift(players, pi, -amount);
    TotalShift(Credit(players, pi, -amount), o, amount);
  }

  /** A landing changes balances only: positions, ids and holdings stay as they were. */
  lemma SettleKeepsHoldings(players: seq<Player>, pi: nat, l: Landing)
    requires pi < |players|
    requires l.PayRent? ==> l.owner < |players|
    ensures SameHoldings(players, Settle(players, pi, l))
    ensures forall k :: 0 <= k < |players| ==> Settle(players, pi, l)[k].position == players[k].position
    ensures l.PayRent? && l.owner != pi ==>
      Settle(players, pi, l)[pi].balance == players[pi].balance - l.amount &&
      Settle(players, pi, l)[l.owner].balance == players[l.owner].balance + l.amount &&
      forall k :: 0 <= k < |players| && k != pi && k != l.owner ==> Settle(players, pi, l)[k] == players[k]
    ensures !l.PayRent? ==> Settle(players, pi, l) == players
  {
  }

  /** Two player lists with the same players holding the same tiles. */
  ghost predicate SameHoldings(ps: seq<Player>, qs: seq<Player>) {
    |ps| == |qs| && forall k :: 0 <= k < |ps| ==> ps[k].id == qs[k].id && ps[k].properties == qs[k].properties
  }

  // ----- dice move -----

  /** `performDiceRoll`'s move by `total`: the new position, and the salary when it is below the old one. */
  function Moved(p: Player, total: int): (q: Player)
    ensures q.id == p.id && q.name == p.name && q.properties == p.properties
  {
    var newPosition := JsRem(p.position + total, BoardSize);
    p.(position := newPosition,
       balance := if newPosition < p.position then p.balance + Salary else p.balance)
  }

  /**
   * A roll of two dice from a position on the board lands on (old + d1 + d2) mod 40, and the salary is
   * credited exactly when the move passes the start tile, that is when the new position is below the old.
   */
  lemma DiceMove(p: Player, d1: int, d2: int)
    requires 0 <= p.position < BoardSize && 1 <= d1 <= 6 && 1 <= d2 <= 6
    ensures Moved(p, d1 + d2).position == (p.position + d1 + d2) % BoardSize
    ensures 0 <= Moved(p, d1 + d2).position < BoardSize
    ensures Moved(p, d1 + d2).position < p.position <==> p.position + d1 + d2 >= BoardSize
    ensures Moved(p, d1 + d2).balance == p.balance + (if Moved(p, d1 + d2).position < p.position then Salary else 0)
  {
  }

  /** From 35, a roll of (3, 4) lands on 2 and credits the salary. */
  lemma RollPastStart(p: Player)
    requires p.position == 35
    ensures Moved(p, 3 + 4).position == 2 && Moved(p, 3 + 4).balance == p.balance + 200
  {
  }

  // ----- card effects -----

  /** `list.find(r => r > pos)`, as the index of the first entry above pos. */
  function FirstAbove(rs: seq<int>, pos: int): (r: Option<nat>)
    ensures r.Some? ==> r.value < |rs| && rs[r.value] > pos && forall j :: 0 <= j < r.value ==> rs[j] <= pos
    ensures r.None? <==> forall k :: 0 <= k < |rs| ==> rs[k] <= pos
  {
    if rs == [] then None
    else if rs[0] > pos then Some(0)
    else match FirstAbove(rs[1..], pos)
      case None => None
      case Some(j) => Some(j + 1)
  }

  /**
   * The NEAREST_RAILROAD target: the first railroad beyond pos, or the first railroad (5) when there is
   * none, in which case the move passes the start tile (`wraps`).
   */
  function NearestRailroadFrom(pos: int): (r: (int, bool))
  {
    match FirstAbove(Railroads, pos)
    case Some(k) => (Railroads[k], false)
    case None => (Railroads[0], true)
  }

  /**
   * The nearest railroad is the least railroad beyond pos when there is one (no salary), and 5 with
   * the salary from 35 onwards.
   */
  lemma NearestRailroadIsNearest(pos: int)
    ensures NearestRailroadFrom(pos).0 in Railroads
    ensures NearestRailroadFrom(pos).1 <==> pos >= 35
    ensures pos >= 35 ==> NearestRailroadFrom(pos).0 == 5
    ensures pos < 35 ==> (pos < NearestRailroadFrom(pos).0 &&
      forall k :: 0 <= k < |Railroads| && pos < Railroads[k] ==> NearestRailroadFrom(pos).0 <= Railroads[k])
  {
    assert Railroads[0] == 5 && Railroads[3] == 35;
  }

  /** The card actions that move the lander and then resolve a replay landing. */
  predicate Relands(c: Card) {
    match c.action
    case MoveRelative(_) => true
    case MoveTo(t) => t != JailIndex
    case NearestRailroad => true
    case _ => false
  }

  /** The effect of a card on the drawer alone (every action except GLOBAL_COLLECT, which also debits others). */
  function CardMove(p: Player, c: Card): (q: Player)
    ensures q.id == p.id && q.name == p.name && q.properties == p.properties
  {
    match c.action
    case Money(v) => p.(balance := p.balance + v)
    case GlobalCollect(_) => p
    case MoveRelative(d) => p.(position := JsRem(p.position + d + BoardSize, BoardSize))
    case MoveTo(t) =>
      if t == JailIndex then p.(position := JailIndex)
      else if MovesBack(c) then p.(position := t)
      else p.(position := t, balance := if t < p.position then p.balance + Salary else p.balance)
    case Jail => p.(position := JailIndex)
    case NearestRailroad =>
      var (rail, wraps) := NearestRailroadFrom(p.position);
      p.(position := rail, balance := if wraps then p.balance + Salary else p.balance)
  }

  /** The movement cards: where each one puts the drawer and when it credits the salary. */
  lemma CardMoves(p: Player, c: Card)
    requires 0 <= p.position < BoardSize
    ensures c.action.Money? ==> CardMove(p, c) == p.(balance := p.balance + c.action.amount)
    ensures c.action.MoveRelative? && c.action.delta >= -BoardSize ==>
      CardMove(p, c) == p.(position := (p.position + c.action.delta + BoardSize) % BoardSize)
    ensures c.action.Jail? || c.action == MoveTo(JailIndex) ==> CardMove(p, c) == p.(position := JailIndex)
    ensures c.action.MoveTo? ==> (CardMove(p, c).position == c.action.target &&
      (CardMove(p, c).balance == p.balance + Salary <==>
         c.action.target != JailIndex && !MovesBack(c) && c.action.target < p.position) &&
      (CardMove(p, c).balance != p.balance + Salary ==> CardMove(p, c).balance == p.balance))
    ensures c.action.NearestRailroad? ==> (CardMove(p, c).position == NearestRailroadFrom(p.position).0 &&
      CardMove(p, c).position in Railroads &&
      CardMove(p, c).balance == p.balance + (if p.position >= 35 then Salary else 0))
  {
    NearestRailroadIsNearest(p.position);
  }

  /** A deck card moves a player on the board to a position on the board. */
  lemma CardMoveStaysOnBoard(p: Player, c: Card)
    requires 0 <= p.position < BoardSize && KeepsOnBoard(c)
    ensures 0 <= CardMove(p, c).position < BoardSize
  {
    NearestRailroadIsNearest(p.position);
  }

  /** The GLOBAL_COLLECT debit: every player whose id differs from `id` pays v. */
  function Debited(players: seq<Player>, id: SocketId, v: int): (r: seq<Player>)
    ensures |r| == |players|
  {
    if players == [] then []
    else
      var last := players[|players| - 1];
      Debited(players[..|players| - 1], id, v) +
        [if last.id != id then last.(balance := last.balance - v) else last]
  }

  /** The GLOBAL_COLLECT accumulator: v for every player whose id differs from `id`. */
  function Collected(players: seq<Player>, id: SocketId, v: int): int {
    if players == [] then 0
    else Collected(players[..|players| - 1], id, v) + (if players[|players| - 1].id != id then v else 0)
  }

  /** The debit touches exactly the players with another id, and only their balance. */
  lemma {:induction false} DebitedAt(players: seq<Player>, id: SocketId, v: int, k: nat)
    requires k < |players|
    ensures Debited(players, id, v)[k] ==
      if players[k].id != id then players[k].(balance := players[k].balance - v) else players[k]
    decreases |players|
  {
    if k < |players| - 1 {
      DebitedAt(players[..|players| - 1], id, v, k);
    }
  }

  /** What the debit removes is exactly what the accumulator collects. */
  lemma {:induction false} DebitedTotal(players: seq<Player>, id: SocketId, v: int)
    ensures Total(Debited(players, id, v)) == Total(players) - Collected(players, id, v)
    decreases |players|
  {
    if players != [] {
      var n := |players|;
      var d := Debited(players, id, v);
      assert d[..n - 1] == Debited(players[..n - 1], id, v);
      DebitedTotal(players[..n - 1], id, v);
    }
  }

  /** With distinct ids, the drawer collects v from each of the other n - 1 players. */
  lemma {:induction false} CollectedFromOthers(players: seq<Player>, pi: nat, v: int)
    requires pi < |players|
    requires forall i, j :: 0 <= i < j < |players| ==> players[i].id != players[j].id
    ensures Collected(players, players[pi].id, v) == v * (|players| - 1)
    decreases |players|
  {
    var n := |players|;
    var id := players[pi].id;
    if pi == n - 1 {
      CollectedNone(players[..n - 1], id, v);
      assert Collected(players[..n - 1], id, v) == v * (n - 1);
    } else {
      CollectedFromOthers(players[..n - 1], pi, v);
      assert players[n - 1].id != id;
    }
  }

  /** A list in which no player has the given id yields v per player. */
  lemma {:induction false} CollectedNone(players: seq<Player>, id: SocketId, v: int)
    requires forall k :: 0 <= k < |players| ==> players[k].id != id
    ensures Collected(players, id, v) == v * |players|
    decreases |players|
  {
    if players != [] {
      CollectedNone(players[..|players| - 1], id, v);
    }
  }

  /** The players after a card's effect is applied to players[pi] (before any replay landing). */
  function CardPlayers(players: seq<Player>, pi: nat, c: Card): (ps: seq<Player>)
    requires pi < |players|
    ensures |ps| == |players|
  {
    match c.action
    case GlobalCollect(v) =>
      var id := players[pi].id;
      var debited := Debited(players, id, v);
      Credit(debited, pi, Collected(players, id, v))
    case _ => players[pi := CardMove(players[pi], c)]
  }

  /** GLOBAL_COLLECT only moves money between players: the sum of all balances is unchanged. */
  lemma CollectConserves(players: seq<Player>, pi: nat, v: int, text: string)
    requires pi < |players|
    ensures Total(CardPlayers(players, pi, Card(text, GlobalCollect(v)))) == Total(players)
  {
    var id := players[pi].id;
    DebitedTotal(players, id, v);
    TotalShift(Debited(players, id, v), pi, Collected(players, id, v));
  }

  /** GLOBAL_COLLECT: each other player pays v and the drawer gains what was collected. */
  lemma CollectEffect(players: seq<Player>, pi: nat, v: int, text: string)
    requires pi < |players|
    ensures var ps := CardPlayers(players, pi, Card(text, GlobalCollect(v)));
      ps[pi] == players[pi].(balance := players[pi].balance + Collected(players, players[pi].id, v)) &&
      forall k :: 0 <= k < |players| && k != pi ==>
        ps[k] == if players[k].id != players[pi].id then players[k].(balance := players[k].balance - v) else players[k]
  {
    var ps := CardPlayers(players, pi, Card(text, GlobalCollect(v)));
    DebitedAt(players, players[pi].id, v, pi);
    forall k | 0 <= k < |players| && k != pi
      ensures ps[k] == if players[k].id != players[pi].id then players[k].(balance := players[k].balance - v) else players[k]
    {
      DebitedAt(players, players[pi].id, v, k);
    }
  }

  /** A card's effect leaves every player's id and holdings as they were. */
  lemma CardKeepsHoldings(players: seq<Player>, pi: nat, c: Card)
    requires pi < |players|
    ensures SameHoldings(players, CardPlayers(players, pi, c))
  {
    if c.action.GlobalCollect? {
      forall k | 0 <= k < |players| {
        DebitedAt(players, players[pi].id, c.action.perPlayer, k);
      }
    }
  }

  /** A card's effect keeps every position on the board when the card is one that keeps players on it. */
  lemma CardKeepsOnBoard(players: seq<Player>, pi: nat, c: Card)
    requires pi < |players| && KeepsOnBoard(c)
    requires forall k :: 0 <= k < |players| ==> 0 <= players[k].position < BoardSize
    ensures forall k :: 0 <= k < |players| ==> 0 <= CardPlayers(players, pi, c)[k].position < BoardSize
  {
    if c.action.GlobalCollect? {
      forall k | 0 <= k < |players| {
        DebitedAt(players, players[pi].id, c.action.perPlayer, k);
      }
    } else {
      CardMoveStaysOnBoard(players[pi], c);
    }
  }

  // ----- buying -----

  /** `action:buy`'s tile test: the tile exists and its price is truthy (not null and not 0). */
  predicate Buyable(board: seq<Tile>, x: int) {
    var t := FindTile(board, x);
    t.Some? && t.value.price.Some? && t.value.price.value != 0
  }

  function PriceOf(board: seq<Tile>, x: int): int
    requires Buyable(board, x)
  {
    FindTile(board, x).value.price.value
  }

  /**
   * `action:buy` for players[pi] on its current position: None when the handler returns early (the tile
   * is owned, it is not buyable, or the balance is below the price), otherwise the players after the
   * price is paid and the position appended to the buyer's properties.
   */
  function Purchase(board: seq<Tile>, players: seq<Player>, pi: nat): (r: Option<seq<Player>>)
    requires pi < |players|
    ensures r.Some? <==> (OwnerOf(players, players[pi].position).None? && Buyable(board, players[pi].position) &&
                          players[pi].balance >= PriceOf(board, players[pi].position))
    ensures r.Some? ==> (|r.value| == |players| &&
      r.value[pi].balance == players[pi].balance - PriceOf(board, players[pi].position) &&
      r.value[pi].properties == players[pi].properties + [players[pi].position] &&
      r.value[pi].id == players[pi].id && r.value[pi].position == players[pi].position &&
      forall k :: 0 <= k < |players| && k != pi ==> r.value[k] == players[k])
  {
    var p := players[pi];
    if OwnerOf(players, p.position).Some? then None
    else if !Buyable(board, p.position) then None
    else if p.balance < PriceOf(board, p.position) then None
    else Some(players[pi := p.(balance := p.balance - PriceOf(board, p.position),
                                properties := p.properties + [p.position])])
  }

  /** No tile occurs twice in one list. */
  predicate NoDup(xs: seq<int>) {
    forall a, b :: 0 <= a < b < |xs| ==> xs[a] != xs[b]
  }

  /** Distinct entries of one kind, all drawn from S, number at most |S|. */
  lemma {:induction false} CountKindDistinct(board: seq<Tile>, props: seq<int>, kind: TileType, S: set<int>)
    requires NoDup(props)
    requires forall k :: 0 <= k < |props| && IsKind(board, props[k], kind) ==> props[k] in S
    ensures CountKind(board, props, kind) <= |(set x | x in S && x in props)| <= |S|
    decreases |props|
  {
    var B := set x | x in S && x in props;
    SubsetCard(B, S);
    if props != [] {
      var n := |props|;
      var init := props[..n - 1];
      var y := props[n - 1];
      assert forall k :: 0 <= k < |init| ==> init[k] == props[k];
      CountKindDistinct(board, init, kind, S);
      var A := set x | x in S && x in init;
      if IsKind(board, y, kind) {
        assert y !in init;
        SubsetCard(A + {y}, B);
      } else {
        SubsetCard(A, B);
      }
    }
  }

  /** The tiles of one kind that a list holds. */
  function HeldOfKind(board: seq<Tile>, props: seq<int>, kind: TileType): set<int> {
    set x | x in props && IsKind(board, x, kind)
  }

  /** In a list without duplicates, the counting `reduce` is the number of distinct held tiles of the kind. */
  lemma {:induction false} CountKindHeld(board: seq<Tile>, props: seq<int>, kind: TileType)
    requires NoDup(props)
    ensures CountKind(board, props, kind) == |HeldOfKind(board, props, kind)|
    decreases |props|
  {
    if props != [] {
      var n := |props|;
      var init := props[..n - 1];
      var y := props[n - 1];
      assert forall k :: 0 <= k < |init| ==> init[k] == props[k];
      CountKindHeld(board, init, kind);
      assert props == init + [y];
      HeldAppend(board, init, y, kind);
    }
  }

  /** Appending a tile not yet held adds it to the held tiles of its kind, and nothing else. */
  lemma HeldAppend(board: seq<Tile>, init: seq<int>, y: int, kind: TileType)
    requires y !in init
    ensures |HeldOfKind(board, init + [y], kind)| ==
      |HeldOfKind(board, init, kind)| + (if IsKind(board, y, kind) then 1 else 0)
  {
    var A, B := HeldOfKind(board, init, kind), HeldOfKind(board, init + [y], kind);
    var added := if IsKind(board, y, kind) then {y} else {};
    assert B == A + added by {
      forall x ensures x in B <==> x in A + added {
        assert x in init + [y] <==> x in init || x == y;
      }
    }
    assert y !in A;
  }

  lemma SubsetCard(A: set<int>, B: set<int>)
    requires A <= B
    ensures |A| <= |B|
  {
    assert B == A + (B - A);
    assert A * (B - A) == {};
  }

  /** On the seed board only 12 and 28 are utilities and only 5, 15, 25 and 35 are railroads. */
  lemma SeedKindAt(x: int)
    ensures IsKind(Tiles, x, Utility) ==> x in {12, 28}
    ensures IsKind(Tiles, x, Railroad) ==> x in {5, 15, 25, 35}
  {
    SeedLookup(x);
    if 0 <= x < 40 {
      SeedIsIndexed();
      SeedRailroadTiles();
      SeedUtilityTiles();
      assert Tiles[x].kind == Utility ==> x == 12 || x == 28;
    }
  }

  /** On the seed board an owner without duplicate entries holds at most two utilities, so x10 is the top case. */
  lemma SeedUtilityCount(props: seq<int>)
    requires NoDup(props)
    ensures CountKind(Tiles, props, Utility) <= 2
  {
    forall k | 0 <= k < |props| ensures IsKind(Tiles, props[k], Utility) ==> props[k] in {12, 28} {
      SeedKindAt(props[k]);
    }
    CountKindDistinct(Tiles, props, Utility, {12, 28});
  }

  /** On the seed board an owner without duplicate entries holds at most four railroads. */
  lemma SeedRailroadCount(props: seq<int>)
    requires NoDup(props)
    ensures CountKind(Tiles, props, Railroad) <= 4
  {
    forall k | 0 <= k < |props| ensures IsKind(Tiles, props[k], Railroad) ==> props[k] in {5, 15, 25, 35} {
      SeedKindAt(props[k]);
    }
    CountKindDistinct(Tiles, props, Railroad, {5, 15, 25, 35});
  }

  /** On the seed board the railroads an owner holds are the entries of the engine's railroad list it holds. */
  lemma SeedRailroadsHeld(props: seq<int>)
    ensures HeldOfKind(Tiles, props, Railroad) == set r | r in Railroads && r in props
  {
    forall x ensures x in HeldOfKind(Tiles, props, Railroad) <==> x in Railroads && x in props {
      SeedRailroadAt(x);
    }
  }

  /** A position is a railroad of the seed board exactly when the engine's railroad list has it. */
  lemma SeedRailroadAt(x: int)
    ensures IsKind(Tiles, x, Railroad) <==> x in Railroads
  {
    assert x in Railroads <==> x == 5 || x == 15 || x == 25 || x == 35;
    if x == 5 || x == 15 || x == 25 || x == 35 {
      SeedLookup(x);
      SeedRailroadTiles();
      assert Tiles[x].kind == Railroad;
    } else {
      SeedKindAt(x);
    }
  }

  /** On the seed board the utilities an owner holds are among 12 and 28. */
  lemma SeedUtilitiesHeld(props: seq<int>)
    ensures HeldOfKind(Tiles, props, Utility) == set u | u in {12, 28} && u in props
  {
    forall x ensures x in HeldOfKind(Tiles, props, Utility) <==> x in {12, 28} && x in props {
      SeedUtilityAt(x);
    }
  }

  /** A position is a utility of the seed board exactly when it is 12 or 28. */
  lemma SeedUtilityAt(x: int)
    ensures IsKind(Tiles, x, Utility) <==> x == 12 || x == 28
  {
    SeedKindAt(x);
    if x == 12 || x == 28 {
      SeedLookup(x);
      SeedUtilityTiles();
    }
  }

  /**
   * Railroad rent on the seed board: 25 for each of the stations 5, 15, 25 and 35 the owner holds, and
   * the tile's rent, which is none, when it holds none of them.
   */
  lemma SeedRailroadRent(tile: Tile, owner: Player, diceTotal: int)
    requires tile in Tiles && tile.kind == Railroad && NoDup(owner.properties)
    ensures var held := set r | r in Railroads && r in owner.properties;
      RentFor(Tiles, tile, owner, diceTotal) == RailroadRate * |held|
  {
    CountKindHeld(Tiles, owner.properties, Railroad);
    SeedRailroadsHeld(owner.properties);
    SeedTaxesAndRents();
  }

  /**
   * Utility rent on the seed board: 10 times the dice total when the owner holds both 12 and 28, and 4
   * times it when it holds only one of them.
   */
  lemma SeedUtilityRent(tile: Tile, owner: Player, diceTotal: int)
    requires tile.kind == Utility && NoDup(owner.properties)
    ensures RentFor(Tiles, tile, owner, diceTotal) ==
      (if 12 in owner.properties && 28 in owner.properties then 10 else 4) * diceTotal
  {
    SeedBothUtilities(owner.properties);
  }

  /** On the seed board a list without duplicates counts two utilities exactly when it holds 12 and 28. */
  lemma SeedBothUtilities(props: seq<int>)
    requires NoDup(props)
    ensures CountKind(Tiles, props, Utility) == 2 <==> 12 in props && 28 in props
  {
    CountKindHeld(Tiles, props, Utility);
    SeedUtilitiesHeld(props);
    PairHeld(props, HeldOfKind(Tiles, props, Utility));
  }

  /** The entries of {12, 28} that a list holds number two exactly when it holds both. */
  lemma PairHeld(props: seq<int>, held: set<int>)
    requires held == set u | u in {12, 28} && u in props
    ensures |held| == 2 <==> 12 in props && 28 in props
  {
    if 12 in props && 28 in props {
      assert held == {12, 28};
    } else if 12 in props {
      assert held == {12};
    } else if 28 in props {
      assert held == {28};
    } else {
      assert held == {};
    }
  }

  /** An owner of both utilities charges 60 to a player whose roll of 6 ends on the utility at 28. */
  lemma BothUtilitiesRollSix(owner: Player)
    requires NoDup(owner.properties) && 12 in owner.properties && 28 in owner.properties
    ensures RentFor(Tiles, Tiles[28], owner, 6) == 60
  {
    SeedUtilityRent(Tiles[28], owner, 6);
  }

  /** On the seed board every tile other than a railroad or a utility charges no rent at all. */
  lemma SeedPlainRentIsZero(tile: Tile, owner: Player, diceTotal: int)
    requires tile in Tiles && tile.kind != Railroad && tile.kind != Utility
    ensures RentFor(Tiles, tile, owner, diceTotal) == 0
  {
    SeedTaxesAndRents();
  }

  /** A replay landing (after a card move) passes a dice total of 0, so a utility then charges nothing. */
  lemma ReplayUtilityRentIsZero(board: seq<Tile>, players: seq<Player>, pi: nat, draw: nat)
    requires pi < |players|
    requires FindTile(board, players[pi].position).Some? && FindTile(board, players[pi].position).value.kind == Utility
    ensures ResolveLanding(board, players, pi, true, 0, draw).PayRent? ==>
      ResolveLanding(board, players, pi, true, 0, draw).amount == 0
  {
  }

  /** The engine's hard-coded board size, jail and railroad positions agree with the seed board. */
  lemma EngineMatchesSeed()
    ensures |Tiles| == BoardSize
    ensures Tiles[JailIndex].kind.Jail?
    ensures forall k :: 0 <= k < |Tiles| ==> (Tiles[k].kind == Railroad <==> k in Railroads)
  {
    SeedIsIndexed();
    SeedRailroadTiles();
    SeedJailTile();
  }
}
