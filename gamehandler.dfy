/**
 * The turn engine as the object it is: the fields of `gameState` and the board table, updated in place
 * by the socket handlers and the timer callbacks. Every method is proved to perform exactly the step
 * of GameState it implements, and the public ones keep `Valid()`.
 */
module GameHandler {
  import opened Wrappers
  import opened Board
  import opened Cards
  import opened GameRules
  import opened GameState

  /** The GLOBAL_COLLECT `forEach`: debit every player whose id differs from `id`, summing what is taken. */
  method DebitOthers(all: seq<Player>, id: SocketId, v: int) returns (ps: seq<Player>, totalCollected: int)
    ensures ps == Debited(all, id, v) && totalCollected == Collected(all, id, v)
  {
    ps := all;
    totalCollected := 0;
    var k := 0;
    while k < |all|
      invariant 0 <= k <= |all| == |ps|
      invariant ps == Debited(all[..k], id, v) + all[k..]
      invariant totalCollected == Collected(all[..k], id, v)
    {
      DebitAdvance(all, k, id, v, ps);
      if ps[k].id != id {
        ps := ps[k := ps[k].(balance := ps[k].balance - v)];
        totalCollected := totalCollected + v;
      }
      k := k + 1;
    }
    assert all[..k] == all;
  }

  /**
   * The rest of `handleLanding` once the tile is known and no card is drawn: the lander pays the rent
   * to another owner, is offered an unowned tile it can afford, or nothing happens.
   */
  method SettleAt(board: seq<Tile>, players: seq<Player>, pi: nat, tile: Tile, isReplay: bool,
                  diceTotal: int, draw: nat) returns (l: Landing, ps: seq<Player>)
    requires pi < |players| && FindTile(board, players[pi].position) == Some(tile)
    requires !(IsCardTile(tile.kind) && !isReplay)
    ensures l == ResolveLanding(board, players, pi, isReplay, diceTotal, draw)
    ensures !l.DrawCard? && (l.PayRent? ==> l.owner < |players|)
    ensures ps == Settle(players, pi, l)
  {
    ps := players;
    var position := ps[pi].position;
    var owner := OwnerOf(ps, position);
    if owner.Some? && ps[owner.value].id != ps[pi].id {
      var o := owner.value;
      var rent := RentFor(board, tile, ps[o], diceTotal);
      ps := ps[pi := ps[pi].(balance := ps[pi].balance - rent)];
      ps := ps[o := ps[o].(balance := ps[o].balance + rent)];
      l := PayRent(o, rent);
      assert ps == Credit(Credit(players, pi, -rent), o, rent);
      assert ResolveLanding(board, players, pi, isReplay, diceTotal, draw) == l;
      return;
    } else if owner.None? && tile.price.Some? && ps[pi].balance >= tile.price.value {
      return OfferBuy(tile.index, tile.price.value), ps;
    }
    return NoAction, ps;
  }

  class Game {
    var board: seq<Tile>
    var players: seq<Player>
    var current: int
    var timeLeft: int
    var running: bool
    var hasRolled: bool
    var ticking: bool
    var cards: seq<PendingCard>
    var advances: nat

    function View(): GameView
      reads this
    {
      GameView(board, players, current, timeLeft, running, hasRolled, ticking, cards, advances)
    }

    ghost predicate Valid()
      reads this
    {
      ViewValid(View())
    }

    /** The initial `gameState` and an empty board table. */
    constructor ()
      ensures View() == Initial && Valid()
    {
      board := [];
      players := [];
      current := 0;
      timeLeft := TurnSeconds;
      running := false;
      hasRolled := false;
      ticking := false;
      cards := [];
      advances := 0;
      InitialValid();
    }

    /** `startGame`; `loaded` says whether reading the board from the database succeeded. */
    method StartGame(entrants: seq<Entrant>, loaded: bool)
      requires Valid() && !running && |entrants| > 0
      modifies this
      ensures Valid() && View() == StartStep(old(View()), entrants, loaded)
    {
      ghost var v0 := View();
      if loaded {
        board := Tiles;
      }
      players := seq(|entrants|, k requires 0 <= k < |entrants| =>
                       Player(entrants[k].id, entrants[k].name, 0, StartBalance, []));
      current := -1;
      running := true;
      hasRolled := false;
      advances := advances + 1;
      StartValid(v0, entrants, loaded);
    }

    /** `nextTurn`. */
    method NextTurn()
      requires |players| > 0
      modifies this
      ensures View() == NextTurnStep(old(View()))
    {
      current := JsRem(current + 1, |players|);
      timeLeft := TurnSeconds;
      hasRolled := false;
      ticking := true;
    }

    /** `handleLanding` for players[pi]. */
    method HandleLanding(pi: nat, isReplay: bool, diceTotal: int, draw: nat) returns (l: Landing)
      requires pi < |players|
      modifies this
      ensures l == ResolveLanding(old(board), old(players), pi, isReplay, diceTotal, draw)
      ensures View() == LandStep(old(View()), pi, isReplay, diceTotal, draw)
    {
      var position := players[pi].position;
      var tile := FindTile(board, position);
      if tile.None? {
        return NoTile;
      }
      if IsCardTile(tile.value.kind) && !isReplay {
        var card := DrawCardFor(pi, tile.value.kind, draw);
        return DrawCard(card);
      }
      var ps;
      l, ps := SettleAt(board, players, pi, tile.value, isReplay, diceTotal, draw);
      players := ps;
    }

    /** The card branch of `handleLanding`: draw from the tile's deck and queue the card for players[pi]. */
    method DrawCardFor(pi: nat, kind: TileType, draw: nat) returns (card: Card)
      modifies this`cards
      ensures card == DeckFor(kind)[draw % |DeckFor(kind)|]
      ensures cards == old(cards) + [PendingCard(pi, card)]
    {
      var deck := DeckFor(kind);
      card := deck[draw % |deck|];
      cards := cards + [PendingCard(pi, card)];
    }

    /** `performDiceRoll` for players[pi] whose dice show `dice` in total; returns that total. */
    method PerformDiceRoll(pi: nat, dice: int, draw: nat) returns (total: int)
      requires pi < |players|
      modifies this
      ensures total == dice
      ensures View() == RollStep(old(View()), pi, dice, draw)
    {
      ghost var v0 := View();
      total := dice;
      var oldPosition := players[pi].position;
      var newPosition := JsRem(oldPosition + total, BoardSize);
      if newPosition < oldPosition {
        players := players[pi := players[pi].(balance := players[pi].balance + Salary)];
      }
      players := players[pi := players[pi].(position := newPosition)];
      hasRolled := true;
      assert players == v0.players[pi := Moved(v0.players[pi], total)];
      assert View() == v0.(players := v0.players[pi := Moved(v0.players[pi], total)], hasRolled := true);
      var _ := HandleLanding(pi, false, total, draw);
    }

    /** `applyCardEffect` for players[pi]: the card's action, then the replay landing of a move. */
    method ApplyCardEffect(pi: nat, card: Card)
      requires pi < |players|
      modifies this
      ensures var after := old(View()).(players := CardPlayers(old(players), pi, card));
        View() == if Relands(card) then LandStep(after, pi, true, 0, 0) else after
    {
      if card.action.GlobalCollect? {
        Collect(pi, card.action.perPlayer);
      } else {
        MoveDrawer(pi, card);
        if Relands(card) {
          var _ := HandleLanding(pi, true, 0, 0);
        }
      }
    }

    /** The `switch` of `applyCardEffect` for every action but GLOBAL_COLLECT: update the drawer alone. */
    method MoveDrawer(pi: nat, card: Card)
      requires pi < |players| && !card.action.GlobalCollect?
      modifies this`players
      ensures players == old(players)[pi := CardMove(old(players)[pi], card)]
    {
      var p := players[pi];
      match card.action
      case Money(v) =>
        players := players[pi := p.(balance := p.balance + v)];
      case MoveRelative(d) =>
        players := players[pi := p.(position := JsRem(p.position + d + BoardSize, BoardSize))];
      case MoveTo(target) =>
        if target == JailIndex {
          players := players[pi := p.(position := JailIndex)];
        } else if MovesBack(card) {
          players := players[pi := p.(position := target)];
        } else {
          var balance := if target < p.position then p.balance + Salary else p.balance;
          players := players[pi := p.(position := target, balance := balance)];
        }
      case Jail =>
        players := players[pi := p.(position := JailIndex)];
      case NearestRailroad =>
        var next := FirstAbove(Railroads, p.position);
        var rail := 5;
        var balance := p.balance;
        if next.None? {
          balance := balance + Salary;
        } else {
          rail := Railroads[next.value];
        }
        players := players[pi := p.(position := rail, balance := balance)];
        assert players[pi] == CardMove(p, card);
    }

    /** GLOBAL_COLLECT: every other player pays `v` to the drawer. */
    method Collect(pi: nat, v: int)
      requires pi < |players|
      modifies this`players
      ensures var id := old(players)[pi].id;
        players == Credit(Debited(old(players), id, v), pi, Collected(old(players), id, v))
    {
      var ps, totalCollected := DebitOthers(players, players[pi].id, v);
      players := ps[pi := ps[pi].(balance := ps[pi].balance + totalCollected)];
    }

    /** The 1500 ms card timeout of the oldest pending card. */
    method CardTimeout()
      requires Valid() && |cards| > 0
      modifies this
      ensures Valid() && View() == CardStep(old(View()))
    {
      ghost var v0 := View();
      var pc := cards[0];
      cards := cards[1..];
      ApplyCardEffect(pc.player, pc.card);
      CardValid(v0);
    }

    /** One tick of the turn interval; the dice total and draw are used only by a forced roll. */
    method TurnTick(dice: int, draw: nat)
      requires Valid() && ticking && 2 <= dice <= 12
      modifies this
      ensures Valid() && View() == TickStep(old(View()), dice, draw)
    {
      ghost var v0 := View();
      Tick(dice, draw);
      TickValid(v0, dice, draw);
    }

    /** The body of the interval callback. */
    method Tick(dice: int, draw: nat)
      requires ticking && 0 <= current < |players|
      modifies this
      ensures View() == TickStep(old(View()), dice, draw)
    {
      ghost var v0 := View();
      timeLeft := timeLeft - 1;
      if timeLeft <= 0 {
        ticking := false;
        if !hasRolled {
          ghost var stopped := View();
          assert stopped == v0.(timeLeft := v0.timeLeft - 1, ticking := false);
          var _ := PerformDiceRoll(current, dice, draw);
          ghost var rolled := RollStep(stopped, stopped.current, dice, draw);
          advances := advances + 1;
          assert View() == rolled.(advances := rolled.advances + 1);
        } else {
          ghost var stopped := View();
          assert stopped == v0.(timeLeft := v0.timeLeft - 1, ticking := false);
          NextTurn();
          assert View() == NextTurnStep(stopped);
        }
      } else {
        assert View() == v0.(timeLeft := v0.timeLeft - 1);
      }
    }

    /** A pending `nextTurn` timeout fires. */
    method NextTurnTimeout()
      requires Valid() && advances > 0
      modifies this
      ensures Valid() && View() == AdvanceStep(old(View()))
    {
      ghost var v0 := View();
      advances := advances - 1;
      NextTurn();
      AdvanceValid(v0);
    }

    /** `action:roll` from socket sid. */
    method ActionRoll(sid: SocketId, dice: int, draw: nat) returns (reply: Reply)
      requires Valid() && 2 <= dice <= 12
      modifies this
      ensures Valid() && Handled(View(), reply) == RollHandler(old(View()), sid, dice, draw)
    {
      ghost var v0 := View();
      reply := Roll(sid, dice, draw);
      RollHandlerValid(v0, sid, dice, draw);
    }

    /** The body of `action:roll`, with its early returns. */
    method Roll(sid: SocketId, dice: int, draw: nat) returns (reply: Reply)
      modifies this
      ensures Handled(View(), reply) == RollHandler(old(View()), sid, dice, draw)
    {
      var player := FindPlayer(players, sid);
      if player.None? {
        return Ignored;
      }
      if !(0 <= current < |players|) {
        return Faulted;
      }
      if players[player.value].id != players[current].id || hasRolled {
        return Ignored;
      }
      var _ := PerformDiceRoll(player.value, dice, draw);
      reply := Accepted;
    }

    /** `action:buy` from socket sid. */
    method ActionBuy(sid: SocketId) returns (reply: Reply)
      requires Valid()
      modifies this
      ensures Valid() && Handled(View(), reply) == BuyHandler(old(View()), sid)
    {
      ghost var v0 := View();
      reply := Buy(sid);
      BuyHandlerValid(v0, sid);
    }

    /** The body of `action:buy`: every early return, then the purchase. */
    method Buy(sid: SocketId) returns (reply: Reply)
      modifies this`players
      ensures Handled(View(), reply) == BuyHandler(old(View()), sid)
    {
      ghost var v0 := View();
      var player := FindPlayer(players, sid);
      if player.None? {
        return Ignored;
      }
      var pi := player.value;
      var p := players[pi];
      var tile := FindTile(board, p.position);
      var owner := OwnerOf(players, p.position);
      if owner.Some? {
        return Ignored;
      }
      if tile.None? || tile.value.price.None? || tile.value.price.value == 0 {
        return Ignored;
      }
      var price := tile.value.price.value;
      if p.balance < price {
        return Ignored;
      }
      players := players[pi := p.(balance := p.balance - price, properties := p.properties + [p.position])];
      reply := Accepted;
      BuyAccepted(v0, sid, pi);
    }

    /** `action:endTurn` from socket sid. */
    method ActionEndTurn(sid: SocketId) returns (reply: Reply)
      requires Valid()
      modifies this
      ensures Valid() && Handled(View(), reply) == EndTurnHandler(old(View()), sid)
    {
      ghost var v0 := View();
      var player := FindPlayer(players, sid);
      if player.None? {
        return Ignored;
      }
      if !(0 <= current < |players|) {
        return Faulted;
      }
      if players[player.value].id == players[current].id && hasRolled {
        NextTurn();
        reply := Accepted;
      } else {
        reply := Ignored;
      }
      EndTurnHandlerValid(v0, sid);
    }
  }

  /** One loop step of the GLOBAL_COLLECT debit: element k joins the debited prefix. */
  lemma DebitAdvance(all: seq<Player>, k: nat, id: SocketId, v: int, ps: seq<Player>)
    requires k < |all| && ps == Debited(all[..k], id, v) + all[k..]
    ensures ps[k] == all[k]
    ensures (if ps[k].id != id then ps[k := ps[k].(balance := ps[k].balance - v)] else ps) ==
      Debited(all[..k + 1], id, v) + all[k + 1..]
    ensures Collected(all[..k + 1], id, v) == Collected(all[..k], id, v) + (if all[k].id != id then v else 0)
  {
    assert all[..k + 1][..k] == all[..k];
    assert all[k..] == [all[k]] + all[k + 1..];
  }

  /** The purchase `action:buy` performs once every early return has been passed. */
  lemma BuyAccepted(v: GameView, sid: SocketId, pi: nat)
    requires FindPlayer(v.players, sid) == Some(pi) && pi < |v.players|
    requires OwnerOf(v.players, v.players[pi].position).None? && Buyable(v.board, v.players[pi].position)
    requires v.players[pi].balance >= PriceOf(v.board, v.players[pi].position)
    ensures var p := v.players[pi];
      var price := PriceOf(v.board, p.position);
      BuyHandler(v, sid) ==
        Handled(v.(players := v.players[pi := p.(balance := p.balance - price, properties := p.properties + [p.position])]),
                Accepted)
  {
  }
}
