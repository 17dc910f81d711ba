/**
 * The turn engine's whole state as a value: the `gameState` record, the board table, and the timers the
 * engine has scheduled. Each socket handler and each timer callback is one step function; `ViewValid` is
 * the invariant every step keeps. The class in GameHandler performs the same steps in place.
 *
 * Timers: the turn interval is either registered or not (`ticking`); the 1500 ms card timeouts all have
 * the same delay and fire in the order they were scheduled (`cards`); the 1000 ms and 2000 ms `nextTurn`
 * timeouts are never cancelled and carry no data (`advances` counts them).
 */
module GameState {
  import opened Wrappers
  import opened Board
  import opened Cards
  import opened GameRules

  /** The length of a turn in interval ticks (one per second). */
  const TurnSeconds: int := 30

  /** A drawn card whose effect waits for its timeout: the drawer's index and the card. */
  datatype PendingCard = PendingCard(player: nat, card: Card)

  /** A lobby seat handed to `startGame`: its socket id and name. */
  datatype Entrant = Entrant(id: SocketId, name: string)

  datatype GameView = GameView(
    board: seq<Tile>,           // boardTiles
    players: seq<Player>,
    current: int,               // currentPlayerIndex
    timeLeft: int,
    running: bool,              // isGameRunning
    hasRolled: bool,
    ticking: bool,              // the turn interval is registered
    cards: seq<PendingCard>,    // pending card timeouts, in firing order
    advances: nat)              // pending nextTurn timeouts

  /** The module-level initial values. */
  const Initial: GameView := GameView([], [], 0, TurnSeconds, false, false, false, [], 0)

  /** How a socket handler ended: it returned early, it threw a TypeError, or it acted. */
  datatype Reply = Ignored | Faulted | Accepted

  datatype Handled = Handled(view: GameView, reply: Reply)

  // ----- the invariant -----

  predicate OnBoard(players: seq<Player>) {
    forall k :: 0 <= k < |players| ==> 0 <= players[k].position < BoardSize
  }

  /** No entry of xs equals an entry of ys. */
  predicate Disjoint(xs: seq<int>, ys: seq<int>) {
    forall a, b :: 0 <= a < |xs| && 0 <= b < |ys| ==> xs[a] != ys[b]
  }

  /** No tile index appears twice, whether in two players' lists or twice in one list. */
  predicate OwnedOnce(players: seq<Player>) {
    (forall i :: 0 <= i < |players| ==> NoDup(players[i].properties)) &&
    (forall i, j :: 0 <= i < |players| && 0 <= j < |players| && i != j ==>
       Disjoint(players[i].properties, players[j].properties))
  }

  /** Every entry of xs names a tile that `action:buy` accepts. */
  predicate AllBuyable(board: seq<Tile>, xs: seq<int>) {
    forall a :: 0 <= a < |xs| ==> Buyable(board, xs[a])
  }

  /** Every owned index names a tile that `action:buy` accepts. */
  predicate OwnedBuyable(board: seq<Tile>, players: seq<Player>) {
    forall i :: 0 <= i < |players| ==> AllBuyable(board, players[i].properties)
  }

  predicate CardsValid(cards: seq<PendingCard>, n: int) {
    forall k :: 0 <= k < |cards| ==> cards[k].player < n && KeepsOnBoard(cards[k].card)
  }

  predicate ViewValid(v: GameView) {
    (v.board == [] || v.board == Tiles) &&
    (v.running <==> |v.players| > 0) &&
    (!v.running ==> v.current == 0 && !v.hasRolled && !v.ticking && v.cards == [] && v.advances == 0) &&
    (v.running ==> -1 <= v.current < |v.players|) &&
    (v.ticking ==> 0 <= v.current && 1 <= v.timeLeft <= TurnSeconds) &&
    OnBoard(v.players) && OwnedOnce(v.players) && OwnedBuyable(v.board, v.players) &&
    CardsValid(v.cards, |v.players|)
  }

  // ----- steps -----

  /** `startGame`: seat every entrant at the start with the opening balance, and schedule the first turn. */
  function StartStep(v: GameView, entrants: seq<Entrant>, loaded: bool): (r: GameView)
    requires !v.running && |entrants| > 0
    ensures |r.players| == |entrants|
  {
    v.(board := if loaded then Tiles else v.board,
       players := seq(|entrants|, k requires 0 <= k < |entrants| =>
                        Player(entrants[k].id, entrants[k].name, 0, StartBalance, [])),
       current := -1, running := true, hasRolled := false, advances := v.advances + 1)
  }

  /** `nextTurn`: hand the turn to the next seat, reset the clock and register the interval. */
  function NextTurnStep(v: GameView): (r: GameView)
    requires |v.players| > 0
  {
    v.(current := JsRem(v.current + 1, |v.players|), timeLeft := TurnSeconds, hasRolled := false, ticking := true)
  }

  /** `handleLanding` for players[pi]: queue the drawn card, or settle the rent. */
  function LandStep(v: GameView, pi: nat, isReplay: bool, diceTotal: int, draw: nat): (r: GameView)
    requires pi < |v.players|
  {
    var l := ResolveLanding(v.board, v.players, pi, isReplay, diceTotal, draw);
    if l.DrawCard? then v.(cards := v.cards + [PendingCard(pi, l.card)])
    else v.(players := Settle(v.players, pi, l))
  }

  /** `performDiceRoll` for players[pi] with dice total `total`: move, mark the roll, resolve the landing. */
  function RollStep(v: GameView, pi: nat, total: int, draw: nat): (r: GameView)
    requires pi < |v.players|
  {
    LandStep(MovedView(v, pi, total), pi, false, total, draw)
  }

  /** The roller moved by the dice total, with the turn marked as rolled. */
  function MovedView(v: GameView, pi: nat, total: int): (r: GameView)
    requires pi < |v.players|
    ensures |r.players| == |v.players| && r.hasRolled
  {
    v.(players := v.players[pi := Moved(v.players[pi], total)], hasRolled := true)
  }

  /** The 1500 ms card timeout: `applyCardEffect` for the oldest pending card, then its replay landing. */
  function CardStep(v: GameView): (r: GameView)
    requires |v.cards| > 0 && v.cards[0].player < |v.players|
  {
    var pc := v.cards[0];
    var after := v.(cards := v.cards[1..], players := CardPlayers(v.players, pc.player, pc.card));
    if Relands(pc.card) then LandStep(after, pc.player, true, 0, 0) else after
  }

  /**
   * One tick of the turn interval. At zero the interval is cleared; a player who has not rolled gets a
   * forced roll and a 2000 ms `nextTurn` timeout, otherwise the turn passes at once.
   */
  function TickStep(v: GameView, total: int, draw: nat): (r: GameView)
    requires v.ticking && 0 <= v.current < |v.players|
  {
    var t := v.(timeLeft := v.timeLeft - 1);
    if t.timeLeft > 0 then t
    else
      var stopped := t.(ticking := false);
      if !stopped.hasRolled then
        var rolled := RollStep(stopped, stopped.current, total, draw);
        rolled.(advances := rolled.advances + 1)
      else NextTurnStep(stopped)
  }

  /** A pending `nextTurn` timeout fires. */
  function AdvanceStep(v: GameView): (r: GameView)
    requires v.advances > 0 && |v.players| > 0
    ensures r.advances == v.advances - 1
  {
    NextTurnStep(v.(advances := v.advances - 1))
  }

  // ----- socket handlers -----

  /**
   * `action:roll` from socket sid. The roll is made only by the current player before it has rolled; a
   * sender the player list knows while no turn has been handed out yet makes the handler throw.
   */
  function RollHandler(v: GameView, sid: SocketId, total: int, draw: nat): (r: Handled)
    ensures r.reply == Faulted <==> FindPlayer(v.players, sid).Some? && !(0 <= v.current < |v.players|)
    ensures r.reply == Accepted <==> (FindPlayer(v.players, sid).Some? && 0 <= v.current < |v.players| &&
                                      v.players[v.current].id == sid && !v.hasRolled)
    ensures r.reply != Accepted ==> r.view == v
    ensures r.reply == Accepted ==> r.view == RollStep(v, FindPlayer(v.players, sid).value, total, draw)
  {
    match FindPlayer(v.players, sid)
    case None => Handled(v, Ignored)
    case Some(pi) =>
      if !(0 <= v.current < |v.players|) then Handled(v, Faulted)
      else if v.players[pi].id != v.players[v.current].id then Handled(v, Ignored)
      else if v.hasRolled then Handled(v, Ignored)
      else Handled(RollStep(v, pi, total, draw), Accepted)
  }

  /** `action:buy` from socket sid. There is no turn check: any known player may buy where it stands. */
  function BuyHandler(v: GameView, sid: SocketId): (r: Handled)
    ensures r.reply != Faulted
    ensures r.reply == Accepted <==> (FindPlayer(v.players, sid).Some? &&
                                      Purchase(v.board, v.players, FindPlayer(v.players, sid).value).Some?)
    ensures r.reply != Accepted ==> r.view == v
  {
    match FindPlayer(v.players, sid)
    case None => Handled(v, Ignored)
    case Some(pi) =>
      match Purchase(v.board, v.players, pi)
      case None => Handled(v, Ignored)
      case Some(ps) => Handled(v.(players := ps), Accepted)
  }

  /** `action:endTurn` from socket sid: only the current player, and only after it has rolled. */
  function EndTurnHandler(v: GameView, sid: SocketId): (r: Handled)
    ensures r.reply == Faulted <==> FindPlayer(v.players, sid).Some? && !(0 <= v.current < |v.players|)
    ensures r.reply == Accepted <==> (FindPlayer(v.players, sid).Some? && 0 <= v.current < |v.players| &&
                                      v.players[v.current].id == sid && v.hasRolled)
    ensures r.reply != Accepted ==> r.view == v
    ensures r.reply == Accepted ==> |v.players| > 0 && r.view == NextTurnStep(v)
  {
    match FindPlayer(v.players, sid)
    case None => Handled(v, Ignored)
    case Some(pi) =>
      if !(0 <= v.current < |v.players|) then Handled(v, Faulted)
      else if v.players[pi].id == v.players[v.current].id && v.hasRolled then Handled(NextTurnStep(v), Accepted)
      else Handled(v, Ignored)
  }

  // ----- the invariant is kept -----

  /** Two lists with the same holdings and positions are equally valid. */
  lemma HoldingsCarry(board: seq<Tile>, ps: seq<Player>, qs: seq<Player>)
    requires SameHoldings(ps, qs)
    requires forall k :: 0 <= k < |ps| ==> qs[k].position == ps[k].position
    ensures OnBoard(ps) ==> OnBoard(qs)
    ensures OwnedOnce(ps) ==> OwnedOnce(qs)
    ensures OwnedBuyable(board, ps) ==> OwnedBuyable(board, qs)
  {
  }

  lemma InitialValid()
    ensures ViewValid(Initial)
  {
  }

  lemma StartValid(v: GameView, entrants: seq<Entrant>, loaded: bool)
    requires ViewValid(v) && !v.running && |entrants| > 0
    ensures ViewValid(StartStep(v, entrants, loaded))
  {
  }

  lemma NextTurnValid(v: GameView)
    requires ViewValid(v) && v.running
    ensures ViewValid(NextTurnStep(v))
  {
  }

  /** Queueing a card of a deck for a seated player keeps the view valid. */
  lemma QueueValid(v: GameView, pc: PendingCard)
    requires ViewValid(v) && pc.player < |v.players| && KeepsOnBoard(pc.card)
    ensures ViewValid(v.(cards := v.cards + [pc]))
  {
    var cs := v.cards + [pc];
    assert forall k :: 0 <= k < |cs| ==> cs[k] == if k < |v.cards| then v.cards[k] else pc;
  }

  /** Settling a landing leaves holdings and positions alone, so the view stays valid. */
  lemma SettleValid(v: GameView, pi: nat, l: Landing)
    requires ViewValid(v) && pi < |v.players|
    requires l.PayRent? ==> l.owner < |v.players|
    ensures ViewValid(v.(players := Settle(v.players, pi, l)))
  {
    var ps := Settle(v.players, pi, l);
    SettleKeepsHoldings(v.players, pi, l);
    HoldingsCarry(v.board, v.players, ps);
  }

  lemma LandValid(v: GameView, pi: nat, isReplay: bool, diceTotal: int, draw: nat)
    requires ViewValid(v) && pi < |v.players|
    ensures ViewValid(LandStep(v, pi, isReplay, diceTotal, draw))
  {
    var l := ResolveLanding(v.board, v.players, pi, isReplay, diceTotal, draw);
    DrawnCardKeepsOnBoard(v.board, v.players, pi, isReplay, diceTotal, draw);
    if l.DrawCard? {
      QueueValid(v, PendingCard(pi, l.card));
    } else {
      SettleValid(v, pi, l);
    }
  }

  /** A drawn card comes from one of the decks, so it keeps players on the board. */
  lemma DrawnCardKeepsOnBoard(board: seq<Tile>, players: seq<Player>, pi: nat, isReplay: bool,
                              diceTotal: int, draw: nat)
    requires pi < |players|
    ensures var l := ResolveLanding(board, players, pi, isReplay, diceTotal, draw);
      l.DrawCard? ==> KeepsOnBoard(l.card)
  {
    var l := ResolveLanding(board, players, pi, isReplay, diceTotal, draw);
    if l.DrawCard? {
      var deck := DeckFor(FindTile(board, players[pi].position).value.kind);
      DecksKeepOnBoard();
      var k :| 0 <= k < |deck| && deck[k] == l.card;
    }
  }

  /** Replacing the players by a list with the same holdings, all on the board, keeps the view valid. */
  lemma ReplaceValid(v: GameView, ps: seq<Player>)
    requires ViewValid(v) && SameHoldings(v.players, ps) && OnBoard(ps)
    ensures ViewValid(v.(players := ps))
  {
    assert OwnedOnce(ps);
    assert OwnedBuyable(v.board, ps);
  }

  /** Moving the roller by a non-negative total and marking the roll keeps the view valid. */
  lemma MovedValid(v: GameView, pi: nat, total: int)
    requires ViewValid(v) && pi < |v.players| && total >= 0
    ensures ViewValid(MovedView(v, pi, total))
  {
    var ps := v.players[pi := Moved(v.players[pi], total)];
    assert 0 <= ps[pi].position < BoardSize;
    assert SameHoldings(v.players, ps);
    assert OnBoard(ps);
    ReplaceValid(v, ps);
  }

  lemma RollValid(v: GameView, pi: nat, total: int, draw: nat)
    requires ViewValid(v) && pi < |v.players| && total >= 0
    ensures ViewValid(RollStep(v, pi, total, draw))
  {
    MovedLandValid(v, pi, total, draw);
  }

  /** The move by a non-negative total followed by its primary landing keeps the view valid. */
  lemma MovedLandValid(v: GameView, pi: nat, total: int, draw: nat)
    requires ViewValid(v) && pi < |v.players| && total >= 0
    ensures ViewValid(LandStep(MovedView(v, pi, total), pi, false, total, draw))
  {
    MovedValid(v, pi, total);
    LandValid(MovedView(v, pi, total), pi, false, total, draw);
  }

  lemma CardValid(v: GameView)
    requires ViewValid(v) && |v.cards| > 0
    ensures ViewValid(CardStep(v))
  {
    var pc := v.cards[0];
    var ps := CardPlayers(v.players, pc.player, pc.card);
    CardKeepsHoldings(v.players, pc.player, pc.card);
    CardKeepsOnBoard(v.players, pc.player, pc.card);
    var after := v.(cards := v.cards[1..], players := ps);
    assert ViewValid(after);
    if Relands(pc.card) {
      LandValid(after, pc.player, true, 0, 0);
    }
  }

  lemma TickValid(v: GameView, total: int, draw: nat)
    requires ViewValid(v) && v.ticking && total >= 0
    ensures ViewValid(TickStep(v, total, draw))
  {
    var t := v.(timeLeft := v.timeLeft - 1);
    if t.timeLeft <= 0 {
      var stopped := t.(ticking := false);
      if !stopped.hasRolled {
        RollValid(stopped, stopped.current, total, draw);
      } else {
        NextTurnValid(stopped);
      }
    }
  }

  lemma AdvanceValid(v: GameView)
    requires ViewValid(v) && v.advances > 0
    ensures ViewValid(AdvanceStep(v))
  {
    NextTurnValid(v.(advances := v.advances - 1));
  }

  lemma RollHandlerValid(v: GameView, sid: SocketId, total: int, draw: nat)
    requires ViewValid(v) && total >= 0
    ensures ViewValid(RollHandler(v, sid, total, draw).view)
  {
    var f := FindPlayer(v.players, sid);
    if f.Some? {
      RollValid(v, f.value, total, draw);
    }
  }

  /** Buying keeps every tile with at most one owner, since it appends only a tile nobody holds. */
  lemma BuyHandlerValid(v: GameView, sid: SocketId)
    requires ViewValid(v)
    ensures ViewValid(BuyHandler(v, sid).view)
  {
    var f := FindPlayer(v.players, sid);
    if f.Some? && Purchase(v.board, v.players, f.value).Some? {
      var ps := Purchase(v.board, v.players, f.value).value;
      PurchaseOwnedOnce(v.board, v.players, f.value);
      PurchaseBuyable(v.board, v.players, f.value);
      assert OnBoard(ps) by {
        assert forall k :: 0 <= k < |ps| ==> ps[k].position == v.players[k].position;
      }
      PlayersValid(v, ps);
    }
  }

  /** New players of the same number, on the board and with valid holdings, keep the view valid. */
  lemma PlayersValid(v: GameView, ps: seq<Player>)
    requires ViewValid(v) && |ps| == |v.players|
    requires OnBoard(ps) && OwnedOnce(ps) && OwnedBuyable(v.board, ps)
    ensures ViewValid(v.(players := ps))
  {
  }

  /** A purchase appends a tile nobody holds, so every tile keeps at most one owner. */
  lemma PurchaseOwnedOnce(board: seq<Tile>, players: seq<Player>, pi: nat)
    requires pi < |players| && OwnedOnce(players) && Purchase(board, players, pi).Some?
    ensures OwnedOnce(Purchase(board, players, pi).value)
  {
    var ps := Purchase(board, players, pi).value;
    var pos := players[pi].position;
    var xs := players[pi].properties;
    forall i | 0 <= i < |ps| ensures NoDup(ps[i].properties) {
      if i == pi {
        FreshAppend(xs, pos);
      }
    }
    forall i, j | 0 <= i < |ps| && 0 <= j < |ps| && i != j
      ensures Disjoint(ps[i].properties, ps[j].properties)
    {
      if i == pi {
        DisjointAppend(xs, ps[j].properties, pos);
      } else if j == pi {
        DisjointAppend(xs, ps[i].properties, pos);
      }
    }
  }

  /** A purchase appends only a buyable tile, so every holding stays buyable. */
  lemma PurchaseBuyable(board: seq<Tile>, players: seq<Player>, pi: nat)
    requires pi < |players| && OwnedBuyable(board, players) && Purchase(board, players, pi).Some?
    ensures OwnedBuyable(board, Purchase(board, players, pi).value)
  {
    var ps := Purchase(board, players, pi).value;
    var xs := players[pi].properties;
    assert AllBuyable(board, ps[pi].properties) by {
      assert forall a :: 0 <= a < |xs| ==> ps[pi].properties[a] == xs[a];
    }
  }

  /** Appending an index that is not yet in a duplicate-free list keeps it duplicate-free. */
  lemma FreshAppend(xs: seq<int>, x: int)
    requires NoDup(xs) && x !in xs
    ensures NoDup(xs + [x])
  {
  }

  /** Appending an index that ys does not hold to a list disjoint from ys keeps the two disjoint. */
  lemma DisjointAppend(xs: seq<int>, ys: seq<int>, x: int)
    requires Disjoint(xs, ys) && x !in ys
    ensures Disjoint(xs + [x], ys) && Disjoint(ys, xs + [x])
  {
  }

  lemma EndTurnHandlerValid(v: GameView, sid: SocketId)
    requires ViewValid(v)
    ensures ViewValid(EndTurnHandler(v, sid).view)
  {
  }

  // ----- properties of the steps -----

  /** `startGame` seats each entrant, in order, at position 0 with 1500 and no property, before any turn. */
  lemma StartResets(v: GameView, entrants: seq<Entrant>, loaded: bool)
    requires ViewValid(v) && !v.running && |entrants| > 0
    ensures var r := StartStep(v, entrants, loaded);
      r.running && r.current == -1 && !r.hasRolled && !r.ticking && r.advances == 1 &&
      (loaded ==> r.board == Tiles) && (!loaded ==> r.board == v.board) &&
      forall k :: 0 <= k < |entrants| ==>
        r.players[k].id == entrants[k].id && r.players[k].name == entrants[k].name &&
        r.players[k].position == 0 && r.players[k].balance == 1500 && r.players[k].properties == []
  {
  }

  /** The first `nextTurn` after `startGame` hands the turn to seat 0 with a full clock. */
  lemma FirstTurn(v: GameView, entrants: seq<Entrant>, loaded: bool)
    requires ViewValid(v) && !v.running && |entrants| > 0
    ensures var r := AdvanceStep(StartStep(v, entrants, loaded));
      r.current == 0 && r.timeLeft == 30 && !r.hasRolled && r.ticking && r.advances == 0
  {
  }

  /** `nextTurn` moves the turn to the following seat, wrapping after the last one. */
  lemma NextTurnRotates(v: GameView)
    requires 0 <= v.current < |v.players|
    ensures var r := NextTurnStep(v);
      r.current == (v.current + 1) % |v.players| &&
      (v.current < |v.players| - 1 ==> r.current == v.current + 1) &&
      (v.current == |v.players| - 1 ==> r.current == 0) &&
      r.timeLeft == 30 && !r.hasRolled && r.ticking && r.players == v.players
  {
  }

  /** k turn changes in a row. */
  function Rotate(v: GameView, k: nat): (r: GameView)
    requires |v.players| > 0
    ensures r.players == v.players
    decreases k
  {
    if k == 0 then v else Rotate(NextTurnStep(v), k - 1)
  }

  /** After k turn changes from seat c the turn is at (c + k) mod n. */
  lemma {:induction false} RotationCycles(v: GameView, k: nat)
    requires |v.players| > 0 && 0 <= v.current < |v.players|
    ensures Rotate(v, k).current == (v.current + k) % |v.players|
    decreases k
  {
    if k > 0 {
      RotationCycles(NextTurnStep(v), k - 1);
      ModStep(v.current, k, |v.players|);
    } else {
      ModUnique(v.current, |v.players|, 0, v.current);
    }
  }

  /** n turn changes bring the turn back to the seat it started from. */
  lemma RotationReturns(v: GameView)
    requires |v.players| > 0 && 0 <= v.current < |v.players|
    ensures Rotate(v, |v.players|).current == v.current
  {
    var n := |v.players|;
    assert (v.current + n) % n == v.current by {
      ModAddN(v.current, n);
      ModUnique(v.current, n, 0, v.current);
    }
    RotationCycles(v, n);
  }

  lemma ModAddN(x: int, n: int)
    requires n > 0
    ensures (x + n) % n == x % n
  {
    ModUnique(x + n, n, x / n + 1, x % n);
  }

  lemma ModStep(c: int, k: int, n: int)
    requires 0 <= c < n && k >= 1
    ensures ((c + 1) % n + (k - 1)) % n == (c + k) % n
  {
    if c + 1 < n {
      ModUnique(c + 1, n, 0, c + 1);
    } else {
      ModUnique(c + 1, n, 1, 0);
      ModAddN(k - 1, n);
    }
  }

  /** A tick with more than one second left only counts down, whatever the dice would have been. */
  lemma QuietTick(v: GameView, total: int, draw: nat)
    requires v.ticking && 0 <= v.current < |v.players| && v.timeLeft > 1
    ensures TickStep(v, total, draw) == v.(timeLeft := v.timeLeft - 1)
  {
  }

  /**
   * When the clock runs out the interval stops; a forced roll (with its delayed `nextTurn`) happens
   * exactly when the player has not rolled, and otherwise the turn passes immediately.
   */
  lemma TimeoutForcesRoll(v: GameView, total: int, draw: nat)
    requires v.ticking && 0 <= v.current < |v.players| && v.timeLeft == 1
    ensures var r := TickStep(v, total, draw);
      (r.advances == v.advances + 1 <==> !v.hasRolled) &&
      (!v.hasRolled ==> (!r.ticking && r.hasRolled && r.current == v.current &&
         r.players[v.current].position == JsRem(v.players[v.current].position + total, BoardSize))) &&
      (v.hasRolled ==> r == NextTurnStep(v.(timeLeft := 0, ticking := false)))
  {
  }

  /** k ticks while the clock has more than k seconds. */
  function QuietTicks(v: GameView, k: nat): (r: GameView)
    requires v.ticking && 0 <= v.current < |v.players| && k < v.timeLeft
    ensures r.ticking && r.current == v.current && r.players == v.players && r.timeLeft == v.timeLeft - k
    decreases k
  {
    if k == 0 then v else QuietTicks(TickStep(v, 2, 0), k - 1)
  }

  /** The clock only counts down until its last second. */
  lemma {:induction false} CountsDown(v: GameView, k: nat)
    requires v.ticking && 0 <= v.current < |v.players| && k < v.timeLeft
    ensures QuietTicks(v, k) == v.(timeLeft := v.timeLeft - k)
    decreases k
  {
    if k > 0 {
      QuietTick(v, 2, 0);
      CountsDown(v.(timeLeft := v.timeLeft - 1), k - 1);
    }
  }

  /**
   * A turn with t seconds on the clock lasts t ticks (a fresh turn has 30): the first t - 1 change nothing
   * but the clock, and the last ends the turn, by a forced roll when the player has not rolled.
   */
  lemma TurnExpires(v: GameView, total: int, draw: nat)
    requires v.ticking && 0 <= v.current < |v.players| && 1 <= v.timeLeft
    ensures var r := TickStep(QuietTicks(v, v.timeLeft - 1), total, draw);
      (v.hasRolled ==> r.current == (v.current + 1) % |v.players| && r.timeLeft == TurnSeconds && !r.hasRolled) &&
      (!v.hasRolled ==> r.current == v.current && r.hasRolled && !r.ticking && r.advances == v.advances + 1)
  {
    var w := v.(timeLeft := 1);
    CountsDown(v, v.timeLeft - 1);
    TimeoutForcesRoll(w, total, draw);
    if v.hasRolled {
      NextTurnRotates(w.(timeLeft := 0, ticking := false));
    }
  }

  /**
   * A roll moves the player by d1 + d2 around the board and marks the turn as rolled; a card is queued
   * exactly when the destination is a chance or community tile, and nothing else is scheduled.
   */
  lemma RollEffect(v: GameView, pi: nat, d1: int, d2: int, draw: nat)
    requires ViewValid(v) && pi < |v.players| && 1 <= d1 <= 6 && 1 <= d2 <= 6
    ensures var r := RollStep(v, pi, d1 + d2, draw);
      var dest := (v.players[pi].position + d1 + d2) % BoardSize;
      r.hasRolled && |r.players| == |v.players| && r.players[pi].position == dest &&
      r.current == v.current && r.advances == v.advances &&
      (|r.cards| == |v.cards| + 1 <==> FindTile(v.board, dest).Some? && IsCardTile(FindTile(v.board, dest).value.kind)) &&
      (|r.cards| != |v.cards| + 1 ==> r.cards == v.cards)
  {
    DiceMove(v.players[pi], d1, d2);
    var dest := (v.players[pi].position + d1 + d2) % BoardSize;
    var moved := v.(players := v.players[pi := Moved(v.players[pi], d1 + d2)], hasRolled := true);
    assert moved.players[pi].position == dest;
    var r := RollStep(v, pi, d1 + d2, draw);
    var l := ResolveLanding(moved.board, moved.players, pi, false, d1 + d2, draw);
    if l.DrawCard? {
      assert r.cards == v.cards + [PendingCard(pi, l.card)];
    } else {
      SettleKeepsHoldings(moved.players, pi, l);
      assert r.cards == v.cards;
    }
  }

  /** A landing moves money between two players at most: the sum of balances is unchanged. */
  lemma LandConserves(v: GameView, pi: nat, isReplay: bool, diceTotal: int, draw: nat)
    requires pi < |v.players|
    ensures Total(LandStep(v, pi, isReplay, diceTotal, draw).players) == Total(v.players)
  {
  }

  /** A primary landing on a card tile only queues the card: no balance or position changes on landing. */
  lemma CardTileOnlyDraws(v: GameView, pi: nat, diceTotal: int, draw: nat)
    requires pi < |v.players|
    requires FindTile(v.board, v.players[pi].position).Some? &&
             IsCardTile(FindTile(v.board, v.players[pi].position).value.kind)
    ensures var r := LandStep(v, pi, false, diceTotal, draw);
      r.players == v.players && |r.cards| == |v.cards| + 1 && r.cards[..|v.cards|] == v.cards &&
      r.cards[|v.cards|].player == pi &&
      r.cards[|v.cards|].card in DeckFor(FindTile(v.board, v.players[pi].position).value.kind)
  {
  }

  /** A replay landing never queues a card. */
  lemma ReplayNeverDraws(v: GameView, pi: nat, diceTotal: int, draw: nat)
    requires pi < |v.players|
    ensures LandStep(v, pi, true, diceTotal, draw).cards == v.cards
  {
  }

  /** A GLOBAL_COLLECT card, when its timeout fires, leaves the sum of all balances as it was. */
  lemma CollectCardConserves(v: GameView)
    requires |v.cards| > 0 && v.cards[0].player < |v.players| && v.cards[0].card.action.GlobalCollect?
    ensures Total(CardStep(v).players) == Total(v.players)
  {
    var pc := v.cards[0];
    CollectConserves(v.players, pc.player, pc.card.action.perPlayer, pc.card.text);
  }

  /** The buy handler ignores whose turn it is and whether that player has rolled. */
  lemma BuyIgnoresTurn(v: GameView, sid: SocketId, c: int, rolled: bool, left: int)
    ensures var w := v.(current := c, hasRolled := rolled, timeLeft := left);
      BuyHandler(w, sid).reply == BuyHandler(v, sid).reply &&
      BuyHandler(w, sid).view == BuyHandler(v, sid).view.(current := c, hasRolled := rolled, timeLeft := left)
  {
  }

  /**
   * An accepted buy debits the buyer by the price and appends its position to its properties; nobody
   * else changes.
   */
  lemma BuyEffect(v: GameView, sid: SocketId)
    requires BuyHandler(v, sid).reply == Accepted
    ensures var pi := FindPlayer(v.players, sid).value;
      var p := v.players[pi];
      var r := BuyHandler(v, sid).view;
      OwnerOf(v.players, p.position).None? && Buyable(v.board, p.position) &&
      p.balance >= PriceOf(v.board, p.position) &&
      r.players[pi].balance == p.balance - PriceOf(v.board, p.position) &&
      r.players[pi].properties == p.properties + [p.position] &&
      r.players[pi].position == p.position &&
      (forall k :: 0 <= k < |v.players| && k != pi ==> r.players[k] == v.players[k]) &&
      r.current == v.current && r.cards == v.cards
  {
  }

  /** In a valid game on the seed board, each owner's utility and railroad counts stay within the board's. */
  lemma SeedOwnerBounds(v: GameView, k: nat)
    requires ViewValid(v) && v.board == Tiles && k < |v.players|
    ensures CountKind(Tiles, v.players[k].properties, Utility) <= 2
    ensures CountKind(Tiles, v.players[k].properties, Railroad) <= 4
  {
    var props := v.players[k].properties;
    assert NoDup(props) by {
      forall a, b | 0 <= a < b < |props| ensures v.players[k].properties[a] != v.players[k].properties[b] {
      }
    }
    SeedUtilityCount(props);
    SeedRailroadCount(props);
  }

  /** When every tile has one owner, the owner of x is the player holding it. */
  lemma SoleOwner(players: seq<Player>, o: nat, x: int)
    requires OwnedOnce(players) && o < |players| && x in players[o].properties
    ensures OwnerOf(players, x) == Some(o) && NoDup(players[o].properties)
  {
    forall j | 0 <= j < |players| && j != o ensures x !in players[j].properties {
      assert Disjoint(players[j].properties, players[o].properties);
    }
  }

  /**
   * Landing on a tile that player o holds, other than a first landing on a card tile, pays o the rent its
   * own holdings determine; o's list has no duplicates, so the seed-board rent lemmas apply to it.
   */
  lemma LandingPaysOwner(board: seq<Tile>, players: seq<Player>, pi: nat, o: nat, isReplay: bool,
                         diceTotal: int, draw: nat)
    requires OwnedOnce(players) && pi < |players| && o < |players|
    requires players[pi].position in players[o].properties && players[o].id != players[pi].id
    requires FindTile(board, players[pi].position).Some?
    requires isReplay || !IsCardTile(FindTile(board, players[pi].position).value.kind)
    ensures NoDup(players[o].properties)
    ensures ResolveLanding(board, players, pi, isReplay, diceTotal, draw) ==
      PayRent(o, RentFor(board, FindTile(board, players[pi].position).value, players[o], diceTotal))
  {
    SoleOwner(players, o, players[pi].position);
  }

  /**
   * After a forced roll the player may still end its turn by hand; the 2000 ms `nextTurn` then fires as
   * well, and the following player loses its whole turn.
   */
  lemma DelayedAdvanceCanSkip(v: GameView, sid: SocketId)
    requires 0 <= v.current < |v.players| && v.hasRolled && v.advances > 0
    requires v.players[v.current].id == sid
    ensures EndTurnHandler(v, sid).reply == Accepted
    ensures AdvanceStep(EndTurnHandler(v, sid).view).current == (v.current + 2) % |v.players|
  {
    var n := |v.players|;
    var c := v.current;
    assert FindPlayer(v.players, sid).Some?;
    var w := NextTurnStep(v);
    assert EndTurnHandler(v, sid).view == w;
    assert w.current == (c + 1) % n;
    assert AdvanceStep(w).current == (w.current + 1) % n;
    ModStep(c, 2, n);
  }
}
