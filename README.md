# 7poly game server, modelled in Dafny

7poly is a Monopoly-style board game played over Socket.IO. This project models its server core:

- the turn engine (`gameHandler.js`): dice rolls, landing resolution, rent, purchases, the two card decks with their delayed effects, the turn rotation and the 30-second turn clock with its forced roll;
- the seat lobby (`lobbyHandler.js`): four seats, join and release, and the 5-second countdown that starts the game;
- the older lobby server (`app.js`), which differs in how seats are released;
- the 40-tile reference board written by the seed script (`seed.js`).

## Layout

| file | module | contents |
|---|---|---|
| `wrappers.dfy` | `Wrappers` | `Option` |
| `board.dfy` | `Board` | tile types, the seed board `Tiles`, and lookup by index |
| `cards.dfy` | `Cards` | the CHANCE and COMMUNITY decks, and the lower-cased wording test used by MOVE_TO |
| `rules.dfy` | `GameRules` | players; landing resolution, rent, the dice move, card effects and purchase, as functions with their lemmas |
| `gamestate.dfy` | `GameState` | the engine's whole state as a `GameView` value; one step function per socket handler and timer callback; the invariant `ViewValid` and the lemmas about the steps |
| `gamehandler.dfy` | `GameHandler` | class `Game`: the same state as fields, updated in place; every method is proved to perform its step and to keep `Valid()` |
| `lobbystate.dfy` | `LobbyState` | seats, events, the shared countdown tick, the release loop, and the join as written |
| `lobbyhandler.dfy` | `LobbyHandler` | the lobby's steps, its invariant, lemmas, and class `Lobby` |
| `legacylobby.dfy` | `LegacyLobby` | the older lobby's steps, its invariant, lemmas contrasting it with the newer one, and its class `Lobby` |

## How the model works

**State and timers.**
- The engine's state is `gameState` plus `boardTiles`, together with the timers the engine has scheduled:
  - `ticking` is set while the one-second turn interval is registered;
  - `cards` is the queue of drawn cards waiting for their 1500 ms timeout. All of these timeouts have the same delay, so they fire in the order they were scheduled;
  - `advances` counts the `nextTurn` timeouts that have been scheduled but have not fired. These are the 1000 ms one in `startGame` and the 2000 ms one after a forced roll, and nothing cancels them.
- Whoever drives the model decides which pending callback fires next: `TurnTick`, `CardTimeout` or `NextTurnTimeout`.

**Randomness and the database.**
- The dice enter as their sum `dice`, between 2 and 12: the engine uses only `die1 + die2`. `RollEffect` and `DiceMove` take the two faces `d1` and `d2`, each between 1 and 6.
- The card drawn is `draw % |deck|`.
- The database read in `startGame` becomes the flag `loaded`:
  - when the read succeeds, the board becomes `Tiles`;
  - when it fails, `boardTiles` keeps its previous value, as the code does.

**Players.**
- A pending card or a landing names its player by index, where the source holds a reference to the player object.
- `startGame` is the only place the player list is replaced. The model assumes the game starts once: `StartGame` requires a game that is not running. `startGame` itself never reads `isGameRunning`. The lobby broadcasts `game:begin` at most once (the `Begins(log) <= 1` part of `LobbyHandler.LobbyValid`). Under that assumption, the index always names the same player the reference did.

**A handler that throws.**
- If `action:roll` or `action:endTurn` arrives from a known player while `currentPlayerIndex` is still −1, reading `currentPlayer.id` throws a `TypeError`.
- The model reports this as the reply `Faulted`, with no change to the state.

**The lobbies.**
- For each lobby, the model keeps the module-level variables and the list of events broadcast so far: `Update`, `Countdown(s)`, `Cancel` and `Begin`.
- "Begin happens at most once" is a statement about that list.

**Details of the code that the model keeps:**
- **Failed board load.** A failed `findMany` keeps the previous `boardTiles`, which is empty only before the first load.
- **Price test in `action:buy`.** `action:buy` refuses a price of 0, because it tests `!currentTile.price` (gameHandler.js:318). `handleLanding` offers such a tile, because it tests `!== null`.
- **Throwing handlers.** `action:roll` and `action:endTurn` throw a `TypeError` while `currentPlayerIndex` is −1, because they read `currentPlayer.id` without a guard.
- **Legacy `leave` without a name.** The guard `slots[index]?.name === name` compares `undefined` with `undefined` when the message has no name and the seat is empty or outside the array. The leave then goes ahead: it broadcasts, and it cancels a running countdown.

## Model

| member | source | states |
|---|---|---|
| Board.SeedIsIndexed | server/prisma/seed.js:5-53 | the seed board has 40 tiles, and tile k carries index k |
| Board.FindTile | server/src/handlers/gameHandler.js:83 | `boardTiles.find` by index: the tile found carries that index, and is the tile at the first position k where one does; None exactly when no tile does |
| Board.SeedLookup | server/prisma/seed.js:5-53 | on the seed board, looking up k finds tile k for 0 ≤ k < 40 and nothing otherwise |
| Board.FindInIndexed | server/src/handlers/gameHandler.js:83 | on a board numbered consecutively from `base`, the lookup of k finds the entry at offset k − base, and nothing outside the numbered range |
| Board.SeedRailroadTiles | server/prisma/seed.js:5-53 | railroads are exactly the tiles 5, 15, 25 and 35 |
| Board.SeedUtilityTiles | server/prisma/seed.js:5-53 | utilities are exactly the tiles 12 and 28 |
| Board.SeedJailTile | server/prisma/seed.js:5-53 | the jail is exactly tile 10 |
| Board.SeedPrices | server/prisma/seed.js:5-53 | price is null exactly on the start, card, jail, free-parking and go-to-jail tiles |
| Board.SeedTaxesAndRents | server/prisma/seed.js:5-53 | the taxes cost 200 (tile 4) and 100 (tile 38); no tile has a rent |
| Cards.DecksKeepOnBoard | server/src/handlers/gameHandler.js:18-44 | every card of both decks that moves a player keeps a position in 0..39 on the board |
| Cards.LowerChar | server/src/handlers/gameHandler.js:204 | lower-casing maps A..Z to a..z and leaves every other character alone |
| Cards.LetterAbsent | server/src/handlers/gameHandler.js:204 | a word with a letter the lower-cased text never contains is not found by `includes` |
| Cards.BackToAs204Wording | server/src/handlers/gameHandler.js:33 | the "Retournez … As204" card is MOVE_TO 1 and passes the move-back wording test |
| Cards.GoToStartWording | server/src/handlers/gameHandler.js:32 | the "Allez à l'accueil" card is MOVE_TO 0 and fails the move-back wording test, so it pays the salary |
| Cards.GoToB208Wording | server/src/handlers/gameHandler.js:29 | the "Allez en B208" card is MOVE_TO 39 and fails the move-back wording test |
| GameRules.JsRem | server/src/handlers/gameHandler.js:254 | JavaScript `%`: agrees with the mathematical remainder for a non-negative dividend; for a negative one it lies in (−b, 0] and differs from the dividend by a multiple of b, which fixes the truncated remainder |
| GameRules.NegativeRem | server/src/handlers/gameHandler.js:254 | for a negative dividend, adding the remainder of its negation gives a multiple of the divisor |
| GameRules.FindPlayer | server/src/handlers/gameHandler.js:304 | `players.find` by socket id: the index found has that id and no earlier player does; None exactly when nobody has it |
| GameRules.OwnerOf | server/src/handlers/gameHandler.js:113 | the first player whose properties include the position; None exactly when nobody owns it |
| GameRules.CountKind | server/src/handlers/gameHandler.js:121-124 | the counting `reduce` never exceeds the length of the property list |
| GameRules.CountKindHeld | server/src/handlers/gameHandler.js:121-124 | on a duplicate-free property list, the `reduce` counts exactly the distinct held tiles of that kind |
| GameRules.HeldAppend | server/src/handlers/gameHandler.js:121-124 | one more, new property adds one held tile of the kind exactly when it is of that kind |
| GameRules.RentFor | server/src/handlers/gameHandler.js:117-144 | railroad: 25 per railroad the owner holds, when it holds any; utility: 10 × dice when the owner holds both, and 4 × dice otherwise; any other tile: its rent, or 0 when null |
| GameRules.SeedRailroadsHeld | server/prisma/seed.js:12-48 | on the seed board, the railroads an owner holds are exactly the held indices among 5, 15, 25 and 35 |
| GameRules.SeedRailroadAt | server/prisma/seed.js:12-48 | on the seed board, an index names a railroad exactly when it is 5, 15, 25 or 35 |
| GameRules.SeedUtilitiesHeld | server/prisma/seed.js:21-39 | on the seed board, the utilities an owner holds are exactly the held indices among 12 and 28 |
| GameRules.SeedUtilityAt | server/prisma/seed.js:21-39 | on the seed board, an index names a utility exactly when it is 12 or 28 |
| GameRules.SeedRailroadRent | server/src/handlers/gameHandler.js:119-125 | on the seed board, a railroad's rent is 25 times the number of railroads the owner holds |
| GameRules.SeedUtilityRent | server/src/handlers/gameHandler.js:128-139 | on the seed board, a utility's rent is 10 × dice when the owner holds both 12 and 28, and 4 × dice otherwise |
| GameRules.SeedBothUtilities | server/src/handlers/gameHandler.js:130-137 | on the seed board, the utility count is 2 exactly when the owner holds both 12 and 28 |
| GameRules.PairHeld | server/src/handlers/gameHandler.js:137 | the held part of {12, 28} has two elements exactly when both are held |
| GameRules.BothUtilitiesRollSix | server/src/handlers/gameHandler.js:128-139 | an owner of both utilities charges 60 for a throw of 6 on Danu |
| GameState.SoleOwner | server/src/handlers/gameHandler.js:113 | under the single-owner invariant, the holder of a tile is its owner, and its list has no duplicates |
| GameState.LandingPaysOwner | server/src/handlers/gameHandler.js:113-148 | landing on another player's tile (outside a primary card draw) pays that owner the rent its holdings determine |
| GameRules.DeckFor | server/src/handlers/gameHandler.js:91 | a chance tile draws from CHANCE and any other card tile from COMMUNITY; either deck is non-empty, so the draw is defined |
| GameRules.ResolveLanding | server/src/handlers/gameHandler.js:82-164 | nothing happens exactly when no tile has that index; a card of the tile's deck is drawn exactly when this is a primary landing on a chance or community tile; rent goes to the first owner with another id, and is the rent that owner charges; an offer names the unowned tile and its price, which the lander can afford |
| GameRules.LandingCases | server/src/handlers/gameHandler.js:113-163 | rent is paid exactly when the tile exists, no card is drawn and the first owner has another id; a purchase is offered exactly when the tile exists, no card is drawn, nobody owns it, and it has a price the lander can afford |
| GameRules.Settle | server/src/handlers/gameHandler.js:146-148 | the rent transfer keeps the number of players and the sum of all balances |
| GameRules.TotalShift | server/src/handlers/gameHandler.js:147 | changing one balance by d changes the sum of all balances by d |
| GameRules.RentConserves | server/src/handlers/gameHandler.js:147-148 | debiting the lander and crediting the owner by the same amount leaves the sum unchanged |
| GameRules.SettleKeepsHoldings | server/src/handlers/gameHandler.js:146-148 | a landing changes balances only: the lander loses the rent, the owner gains it, and every other player, position and property list is as before |
| GameRules.Moved | server/src/handlers/gameHandler.js:52-64 | the dice move keeps the player's id, name and properties |
| GameRules.DiceMove | server/src/handlers/gameHandler.js:47-65 | a roll from a tile on the board lands on (old + d1 + d2) mod 40. The salary of 200 is paid exactly when the new position is below the old one, which is exactly when the move passes tile 39 |
| GameRules.RollPastStart | server/src/handlers/gameHandler.js:53-58 | from 35, a roll of 3 and 4 lands on 2 and pays the salary |
| GameRules.FirstAbove | server/src/handlers/gameHandler.js:229 | `railroads.find(r => r > pos)`: the first entry above pos; None exactly when no entry is above it |
| GameRules.NearestRailroadIsNearest | server/src/handlers/gameHandler.js:225-235 | the target is a railroad. Below 35 it is the least railroad beyond the position and pays no salary. From 35 onwards it is 5 and pays the salary |
| GameRules.CardMove | server/src/handlers/gameHandler.js:171-240 | a card's effect on the drawer keeps its id, name and properties |
| GameRules.CardMoves | server/src/handlers/gameHandler.js:171-240 | MONEY changes the balance by its value. MOVE_RELATIVE moves by (pos + d + 40) mod 40. JAIL and MOVE_TO 10 go to 10. MOVE_TO pays the salary exactly when the move is not back, not to jail, and to a lower index. NEAREST_RAILROAD goes to the first railroad after the position, wrapping to 5, and pays the salary from 35 onwards |
| GameRules.CardMoveStaysOnBoard | server/src/handlers/gameHandler.js:189-240 | a deck card moves a player on the board to a position on the board |
| GameRules.Debited | server/src/handlers/gameHandler.js:179-183 | the GLOBAL_COLLECT debit keeps the number of players; which players it debits is stated by DebitedAt |
| GameRules.Collected | server/src/handlers/gameHandler.js:178-182 | no contract: the `totalCollected` accumulator, v for every player with another id; its value is given by DebitedTotal, CollectedFromOthers and CollectedNone |
| GameRules.DebitedAt | server/src/handlers/gameHandler.js:179-183 | the GLOBAL_COLLECT `forEach` debits exactly the players whose id differs from the drawer's, and changes only their balance |
| GameRules.DebitedTotal | server/src/handlers/gameHandler.js:178-185 | what the debit removes from all balances is exactly what `totalCollected` accumulates |
| GameRules.CollectedFromOthers | server/src/handlers/gameHandler.js:178-184 | with distinct ids, the drawer collects the value from each of the other n − 1 players |
| GameRules.CollectedNone | server/src/handlers/gameHandler.js:178-184 | players who all differ from the drawer's id each contribute the value |
| GameRules.CollectConserves | server/src/handlers/gameHandler.js:177-187 | GLOBAL_COLLECT leaves the sum of all balances unchanged |
| GameRules.Credit | server/src/handlers/gameHandler.js:185 | `player.balance += totalCollected` keeps the number of players; the total moves by the credit (TotalShift) |
| GameRules.CardPlayers | server/src/handlers/gameHandler.js:167-240 | the players after `applyCardEffect` keep their number; the effect per card is stated by CardMoves, CollectEffect, CardKeepsHoldings and CardKeepsOnBoard |
| GameRules.CollectEffect | server/src/handlers/gameHandler.js:177-187 | the drawer gains what was collected, each other player with another id pays the value, and everyone else is unchanged |
| GameRules.CardKeepsHoldings | server/src/handlers/gameHandler.js:167-240 | no card changes any player's id or properties |
| GameRules.CardKeepsOnBoard | server/src/handlers/gameHandler.js:167-240 | a deck card keeps every player on the board |
| GameRules.Purchase | server/src/handlers/gameHandler.js:314-328 | the purchase succeeds exactly when the tile is unowned, exists, has a truthy price and is affordable. The buyer then loses exactly the price and gains its position at the end of its properties; nobody else changes |
| GameRules.CountKindDistinct | server/src/handlers/gameHandler.js:121-124 | a duplicate-free property list whose tiles of one kind all come from a set S counts at most the size of S |
| GameRules.SubsetCard | server/src/handlers/gameHandler.js:121-124 | a subset is no larger than its superset |
| GameRules.SeedKindAt | server/prisma/seed.js:5-53 | on the seed board only 12 and 28 are utilities, and only 5, 15, 25 and 35 are railroads |
| GameRules.SeedUtilityCount | server/src/handlers/gameHandler.js:131-137 | on the seed board a duplicate-free owner holds at most 2 utilities, so ×10 is the top multiplier |
| GameRules.SeedRailroadCount | server/src/handlers/gameHandler.js:121-125 | on the seed board a duplicate-free owner holds at most 4 railroads, so rent is at most 100 |
| GameRules.SeedPlainRentIsZero | server/src/handlers/gameHandler.js:117 | on the seed board every tile other than a railroad or a utility charges a rent of 0 |
| GameRules.ReplayUtilityRentIsZero | server/src/handlers/gameHandler.js:193 | a replay landing passes a dice total of 0, so a utility reached by a card charges nothing |
| GameRules.EngineMatchesSeed | server/src/handlers/gameHandler.js:196-240 | the engine's hard-coded board size 40, jail 10 and railroads [5, 15, 25, 35] agree with the seed board |
| GameState.StartStep | server/src/handlers/gameHandler.js:364-369 | `startGame` seats one player per entrant (the seats' contents are stated by `StartResets`) |
| GameState.AdvanceStep | server/src/handlers/gameHandler.js:377-379 | a fired `nextTurn` timeout is no longer pending |
| GameState.RollHandler | server/src/handlers/gameHandler.js:303-311 | throws exactly when the sender is known and no turn has been handed out. The roll is accepted exactly when the sender is the current player and has not rolled, and it is then the roll of that player. Otherwise nothing changes |
| GameState.BuyHandler | server/src/handlers/gameHandler.js:314-337 | never throws; accepted exactly when the sender is known and the purchase succeeds; otherwise nothing changes |
| GameState.EndTurnHandler | server/src/handlers/gameHandler.js:340-348 | throws exactly when the sender is known and no turn has been handed out; accepted exactly when the sender is the current player and has rolled, and then hands the turn on as `nextTurn` does; otherwise nothing changes |
| GameState.HoldingsCarry | server/src/handlers/gameHandler.js:146-148 | replacing the players by a list with the same ids, properties and positions keeps them on the board, each tile with one owner, and every owned tile buyable |
| GameState.InitialValid | server/src/handlers/gameHandler.js:2-12 | the module's initial state satisfies the invariant |
| GameState.StartValid | server/src/handlers/gameHandler.js:351-380 | `startGame` keeps the invariant |
| GameState.NextTurnStep | server/src/handlers/gameHandler.js:250-261 | no contract: `nextTurn` as a state change; its properties are in NextTurnRotates, RotationCycles and NextTurnValid |
| GameState.LandStep | server/src/handlers/gameHandler.js:82-164 | no contract: `handleLanding` as a state change; its properties are in LandConserves, CardTileOnlyDraws, ReplayNeverDraws and LandValid |
| GameState.RollStep | server/src/handlers/gameHandler.js:47-79 | no contract: `performDiceRoll` as a state change; its properties are in RollEffect and RollValid |
| GameState.CardStep | server/src/handlers/gameHandler.js:106-108 | no contract: the 1500 ms card timeout as a state change; its properties are in CollectCardConserves and CardValid |
| GameState.TickStep | server/src/handlers/gameHandler.js:264-286 | no contract: one tick of the turn interval as a state change; its properties are in QuietTick, TimeoutForcesRoll, TurnExpires and TickValid |
| GameState.NextTurnValid | server/src/handlers/gameHandler.js:250-261 | `nextTurn` keeps the invariant |
| GameState.MovedView | server/src/handlers/gameHandler.js:52-65 | the dice move keeps the number of players and marks the turn as rolled |
| GameState.LandValid | server/src/handlers/gameHandler.js:82-164 | `handleLanding` keeps the invariant |
| GameState.QueueValid | server/src/handlers/gameHandler.js:106-108 | scheduling the timeout of a card that keeps players on the board, for an existing player, keeps the invariant |
| GameState.SettleValid | server/src/handlers/gameHandler.js:146-148 | the rent transfer keeps the invariant |
| GameState.DrawnCardKeepsOnBoard | server/src/handlers/gameHandler.js:89-92 | a card drawn on landing comes from a deck, so it keeps players on the board |
| GameState.MovedValid | server/src/handlers/gameHandler.js:52-65 | moving the roller by a non-negative total and marking the roll keeps the invariant |
| GameState.MovedLandValid | server/src/handlers/gameHandler.js:52-76 | the move followed by its landing keeps the invariant |
| GameState.ReplaceValid | server/src/handlers/gameHandler.js:167-247 | a player list with the same holdings, all on the board, keeps the invariant |
| GameState.RollValid | server/src/handlers/gameHandler.js:47-79 | `performDiceRoll` with a non-negative dice total keeps the invariant |
| GameState.CardValid | server/src/handlers/gameHandler.js:106-108 | the card timeout keeps the invariant: the `applyCardEffect` and its replay landing |
| GameState.TickValid | server/src/handlers/gameHandler.js:264-286 | a tick of the turn interval keeps the invariant |
| GameState.AdvanceValid | server/src/handlers/gameHandler.js:277-279 | a delayed `nextTurn` keeps the invariant |
| GameState.RollHandlerValid | server/src/handlers/gameHandler.js:303-311 | `action:roll` keeps the invariant |
| GameState.BuyHandlerValid | server/src/handlers/gameHandler.js:314-337 | `action:buy` keeps the invariant; in particular no tile ever appears twice among the players' properties |
| GameState.PlayersValid | server/src/handlers/gameHandler.js:327-328 | new players of the same number, on the board, with each tile held once and only buyable tiles held, keep the invariant |
| GameState.PurchaseOwnedOnce | server/src/handlers/gameHandler.js:321-328 | a purchase appends a tile nobody holds, so no property list has a duplicate and no two players share a tile |
| GameState.PurchaseBuyable | server/src/handlers/gameHandler.js:323-328 | a purchase appends only a tile with a price, so every held tile stays buyable |
| GameState.FreshAppend | server/src/handlers/gameHandler.js:328 | pushing an index not yet in a duplicate-free list keeps it duplicate-free |
| GameState.DisjointAppend | server/src/handlers/gameHandler.js:328 | pushing an index another player does not hold keeps the two property lists disjoint |
| GameState.EndTurnHandlerValid | server/src/handlers/gameHandler.js:340-348 | `action:endTurn` keeps the invariant |
| GameState.StartResets | server/src/handlers/gameHandler.js:351-380 | `startGame` seats each entrant in order at position 0 with 1500 and no properties. It sets the index to −1, starts the game, and schedules one `nextTurn`. The board is the seed board when loaded and otherwise unchanged |
| GameState.FirstTurn | server/src/handlers/gameHandler.js:377-379 | the first `nextTurn` after `startGame` gives the turn to seat 0 with 30 seconds and no roll |
| GameState.NextTurnRotates | server/src/handlers/gameHandler.js:254-256 | `nextTurn` moves the turn to the next seat, wraps after the last one, resets the clock to 30 and the roll flag, and changes no player |
| GameState.Rotate | server/src/handlers/gameHandler.js:250-261 | any number of turn changes leaves the players alone |
| GameState.RotationCycles | server/src/handlers/gameHandler.js:254 | after k turn changes from seat c, the turn is at (c + k) mod n |
| GameState.RotationReturns | server/src/handlers/gameHandler.js:254 | n turn changes bring the turn back to the seat it started from |
| GameRules.ModUnique | server/src/handlers/gameHandler.js:254 | the remainder is determined by any decomposition x = q·n + r with 0 ≤ r < n |
| GameState.ModAddN | server/src/handlers/gameHandler.js:254 | adding n does not change the remainder mod n |
| GameState.ModStep | server/src/handlers/gameHandler.js:254 | one step to the next seat followed by k − 1 more is k steps |
| GameState.QuietTick | server/src/handlers/gameHandler.js:264-268 | a tick with more than a second left only decrements `timeLeft` |
| GameState.TimeoutForcesRoll | server/src/handlers/gameHandler.js:268-285 | when the clock reaches 0 and the player has not rolled, the interval stops and that player is moved by the dice total: a forced roll, which also schedules one delayed `nextTurn`. If the player has rolled, the turn passes at once |
| GameState.QuietTicks | server/src/handlers/gameHandler.js:264-268 | fewer ticks than the seconds left keep the interval, the turn and the players, and take that many seconds off |
| GameState.CountsDown | server/src/handlers/gameHandler.js:264-268 | k ticks with more than k seconds left change only the clock |
| GameState.TurnExpires | server/src/handlers/gameHandler.js:255-286 | a turn with t seconds on the clock ends on its t-th tick (t is 30 after `nextTurn`). The turn passes when the player had rolled; otherwise a forced roll happens with a delayed `nextTurn` |
| GameState.RollEffect | server/src/handlers/gameHandler.js:47-79 | a roll moves the player to (pos + d1 + d2) mod 40 and marks the turn as rolled. A card is queued exactly when the destination is a chance or community tile; nothing else is scheduled |
| GameState.LandConserves | server/src/handlers/gameHandler.js:146-148 | a landing leaves the sum of all balances unchanged |
| GameState.CardTileOnlyDraws | server/src/handlers/gameHandler.js:89-110 | a primary landing on a card tile only queues one card of that tile's deck for the lander; no balance or position changes |
| GameState.ReplayNeverDraws | server/src/handlers/gameHandler.js:89 | a replay landing never queues a card |
| GameState.CollectCardConserves | server/src/handlers/gameHandler.js:177-187 | a GLOBAL_COLLECT card leaves the sum of all balances unchanged when its timeout fires |
| GameState.BuyIgnoresTurn | server/src/handlers/gameHandler.js:314-324 | `action:buy` does not depend on whose turn it is, on the roll flag or on the clock |
| GameState.BuyEffect | server/src/handlers/gameHandler.js:321-328 | an accepted buy was for an unowned, buyable, affordable tile. It debits exactly the price and appends the position. No other player, the turn, or the pending cards change |
| GameState.SeedOwnerBounds | server/src/handlers/gameHandler.js:121-137 | in a valid game on the seed board, each player holds at most 2 utilities and 4 railroads |
| GameState.DelayedAdvanceCanSkip | server/src/handlers/gameHandler.js:277-279 | after a forced roll, the player may still end the turn by hand; the pending `nextTurn` then also fires, and the turn jumps two seats |
| GameHandler.Game.constructor | server/src/handlers/gameHandler.js:2-12 | the fields start as the module's initial values and satisfy the invariant |
| GameHandler.Game.StartGame | server/src/handlers/gameHandler.js:351-380 | performs `startGame` in place and keeps the invariant |
| GameHandler.Game.NextTurn | server/src/handlers/gameHandler.js:250-261 | performs `nextTurn` in place |
| GameHandler.DebitOthers | server/src/handlers/gameHandler.js:178-184 | the `forEach` loop debits exactly the players whose id differs from the drawer's, and `totalCollected` ends as the sum of those debits |
| GameHandler.SettleAt | server/src/handlers/gameHandler.js:113-163 | once the tile is known and no card is drawn, returns the landing's outcome (rent to another owner, an offer, or nothing) and the players after the rent transfer |
| GameHandler.Game.HandleLanding | server/src/handlers/gameHandler.js:82-164 | returns the landing's outcome and performs its effect in place: queue the card, or transfer the rent |
| GameHandler.Game.DrawCardFor | server/src/handlers/gameHandler.js:89-109 | draws the card at `draw` modulo the deck size from the tile's deck and schedules its timeout for the lander |
| GameHandler.Game.PerformDiceRoll | server/src/handlers/gameHandler.js:47-79 | returns the dice total and performs the roll and its landing in place |
| GameHandler.Game.ApplyCardEffect | server/src/handlers/gameHandler.js:167-247 | applies the card's effect to the players in place, then the replay landing for the cards that move the player |
| GameHandler.Game.MoveDrawer | server/src/handlers/gameHandler.js:171-240 | every action but GLOBAL_COLLECT changes the drawer alone, by the card's effect on it |
| GameHandler.DebitAdvance | server/src/handlers/gameHandler.js:179-183 | one `forEach` step: the next player joins the debited prefix, and the accumulator grows by v exactly when that player has another id |
| GameHandler.Game.Collect | server/src/handlers/gameHandler.js:177-185 | every other player pays the value, and the drawer is credited with what the loop accumulated |
| GameHandler.Game.CardTimeout | server/src/handlers/gameHandler.js:106-108 | the oldest pending card's timeout performs its effect and keeps the invariant |
| GameHandler.Game.TurnTick | server/src/handlers/gameHandler.js:264-286 | one tick of the interval, in place, keeping the invariant |
| GameHandler.Game.Tick | server/src/handlers/gameHandler.js:264-286 | the interval callback performs exactly the tick step: the clock, then a forced roll with a pending `nextTurn`, or the turn change |
| GameHandler.Game.NextTurnTimeout | server/src/handlers/gameHandler.js:277-279 | a pending `nextTurn` timeout fires, keeping the invariant |
| GameHandler.Game.ActionRoll | server/src/handlers/gameHandler.js:303-311 | `action:roll` in place, with the reply and new state of `RollHandler`, keeping the invariant |
| GameHandler.Game.Roll | server/src/handlers/gameHandler.js:304-310 | the body of `action:roll`, with each early return, matches `RollHandler` |
| GameHandler.Game.ActionBuy | server/src/handlers/gameHandler.js:314-337 | `action:buy` in place, with the reply and new state of `BuyHandler`, keeping the invariant |
| GameHandler.Game.Buy | server/src/handlers/gameHandler.js:315-328 | the body of `action:buy`, with each early return, matches `BuyHandler` |
| GameHandler.BuyAccepted | server/src/handlers/gameHandler.js:321-328 | past every early return, `action:buy` debits the price and appends the position, and is accepted |
| GameHandler.Game.ActionEndTurn | server/src/handlers/gameHandler.js:340-348 | `action:endTurn` in place, with the reply and new state of `EndTurnHandler`, keeping the invariant |
| LobbyState.OccupantsFull | server/src/handlers/lobbyHandler.js:37-38 | the non-null count is at most the number of seats, and equals it exactly when every seat is taken |
| LobbyState.Joined | server/src/handlers/lobbyHandler.js:24-31 | no contract: the join guard and the seat it fills; its properties are in JoinEffect and ReleaseUndoesJoin |
| LobbyState.Released | server/src/handlers/lobbyHandler.js:73-79 | no contract: the `slots.map` that nulls a socket's seats; its properties are in ReleaseEffect and ReleaseStable |
| LobbyState.JoinEffect | server/src/handlers/lobbyHandler.js:24-31 | a join succeeds exactly when the seat exists and is empty and the name is unused. It fills only that seat, with the socket id, the name, `ready` false and `score` 0, and names stay unique |
| LobbyState.ReleaseEffect | server/src/handlers/lobbyHandler.js:72-79 | a release nulls exactly the socket's seats, leaves the others, keeps names unique, and leaves a seat free exactly when one was freed or was already free |
| LobbyState.ClearKeepsUnique | server/app.js:56-57 | nulling one seat keeps the seated names unique |
| LobbyState.ReleaseStable | server/src/handlers/lobbyHandler.js:72-81 | releasing a socket without a seat changes nothing; releasing twice is releasing once |
| LobbyState.ReleaseUndoesJoin | server/src/handlers/lobbyHandler.js:24-79 | a release after a join by the same socket gives the same seats as the release alone |
| LobbyState.JoinFillsAll | server/src/handlers/lobbyHandler.js:37-38 | after a join on four seats, "four non-null entries" and "every seat taken" coincide |
| LobbyState.ReleaseSeats | server/src/handlers/lobbyHandler.js:72-79 | the `map` loop computes the release, and its `changed` flag is true exactly when the socket held a seat |
| LobbyState.CountdownTick | server/src/handlers/lobbyHandler.js:45-55 | a tick takes a second off. It broadcasts the remaining seconds while they are positive; at 0 it clears the interval and broadcasts the start. Seats and `gameStarted` are unchanged |
| LobbyState.CountdownFinishes | server/src/handlers/lobbyHandler.js:45-55 | a countdown at s seconds broadcasts s − 1 down to 1 and then the start, after exactly s ticks, with the seats unchanged |
| LobbyState.JoinAsWritten | server/src/handlers/lobbyHandler.js:24-31 | the join as written grows the seat array when the index is at or past its end |
| LobbyState.JoinPastEndStartsEarly | server/src/handlers/lobbyHandler.js:24-38 | three seated players and a fourth joining at index 4 give four non-null entries while seat 3 is empty |
| LobbyHandler.StartValid | server/src/handlers/lobbyHandler.js:2-6 | the initial lobby satisfies the invariant |
| LobbyHandler.JoinStep | server/src/handlers/lobbyHandler.js:20-58 | no contract: `lobby:join` as a state change; its properties are in CountdownStartsWhenFull and JoinValid |
| LobbyHandler.DisconnectStep | server/src/handlers/lobbyHandler.js:71-93 | no contract: `handleDisconnect` as a state change; its properties are in DisconnectCancels and DisconnectValid |
| LobbyHandler.JoinValid | server/src/handlers/lobbyHandler.js:20-58 | `lobby:join` keeps the invariant: four seats, unique names, a countdown only with every seat taken, and at most one start |
| LobbyHandler.TickValid | server/src/handlers/lobbyHandler.js:45-55 | a countdown tick keeps the invariant |
| LobbyHandler.DisconnectValid | server/src/handlers/lobbyHandler.js:71-93 | `handleDisconnect` keeps the invariant |
| LobbyHandler.CountdownStartsWhenFull | server/src/handlers/lobbyHandler.js:37-43 | a join starts the countdown exactly when it succeeds in a lobby not yet started and every seat is then taken; the countdown starts at 5 and is broadcast |
| LobbyHandler.BeginsWithFullTable | server/src/handlers/lobbyHandler.js:45-55 | a running countdown broadcasts its remaining seconds and the start, with all four seats taken |
| LobbyHandler.NoSecondCountdown | server/src/handlers/lobbyHandler.js:38-39 | once the game has begun, the lobby stays started and no join or release starts a countdown |
| LobbyHandler.DisconnectCancels | server/src/handlers/lobbyHandler.js:81-92 | freeing a seat during the countdown cancels it: the interval is cleared, `gameStarted` is false, and the update and the cancel are broadcast. A socket without a seat changes nothing. Afterwards the socket holds no seat |
| LobbyHandler.BeginsAppend | server/src/handlers/lobbyHandler.js:53 | the start count of a broadcast list grows by one exactly when the start is broadcast |
| LobbyHandler.Lobby.constructor | server/src/handlers/lobbyHandler.js:2-6 | four empty seats, not started, no countdown, nothing broadcast |
| LobbyHandler.Lobby.Join | server/src/handlers/lobbyHandler.js:20-58 | `lobby:join` in place, keeping the invariant |
| LobbyHandler.Lobby.Tick | server/src/handlers/lobbyHandler.js:45-55 | one countdown second in place, keeping the invariant |
| LobbyHandler.Lobby.Disconnect | server/src/handlers/lobbyHandler.js:71-98 | `handleDisconnect` (for both `lobby:leave` and `disconnect`) in place, keeping the invariant |
| LegacyLobby.JoinStep | server/app.js:17-53 | no contract: `join` as a state change; its properties are in JoinAgrees and JoinValid |
| LegacyLobby.LeaveStep | server/app.js:55-69 | no contract: `leave` as a state change; its properties are in LeaveEffect, NamelessLeaveCancels and LeaveValid |
| LegacyLobby.DisconnectStep | server/app.js:71-82 | no contract: `disconnect` as a state change; its properties are in DisconnectKeepsCountdown and DisconnectValid |
| LegacyLobby.JoinValid | server/app.js:17-53 | `join` keeps the invariant |
| LegacyLobby.TickValid | server/app.js:39-50 | a countdown tick keeps the invariant |
| LegacyLobby.LeaveValid | server/app.js:55-69 | `leave` keeps the invariant |
| LegacyLobby.DisconnectValid | server/app.js:71-82 | `disconnect` keeps the invariant |
| LegacyLobby.JoinAgrees | server/app.js:19-30 | on four seats the older join ("every seat non-null") behaves exactly like the newer one ("four non-null entries") |
| LegacyLobby.LeaveEffect | server/app.js:55-68 | `leave` acts exactly when seat `index` carries `name`, or when no name is given and the seat is empty or out of range. It then frees only that seat and broadcasts. A named leave frees a taken seat. During the countdown it cancels, with the seconds set to 0; otherwise the countdown state is unchanged |
| LegacyLobby.NamelessLeaveCancels | server/app.js:55-68 | a leave without a name for an index outside the seats frees nothing but still broadcasts and cancels a running countdown |
| LegacyLobby.DisconnectKeepsCountdown | server/app.js:71-82 | a disconnect during the countdown leaves it running with a seat empty, and the game then begins short-handed; the newer lobby cancels in the same situation |
| LegacyLobby.Lobby.constructor | server/app.js:7-11 | four empty seats, not started, no countdown, nothing broadcast |
| LegacyLobby.Lobby.Join | server/app.js:17-53 | `join` in place, keeping the invariant |
| LegacyLobby.Lobby.Tick | server/app.js:39-50 | one countdown second in place, keeping the invariant |
| LegacyLobby.Lobby.Leave | server/app.js:55-69 | `leave` in place, with or without a name, equal to `LeaveStep` and keeping the invariant |
| LegacyLobby.Lobby.Disconnect | server/app.js:71-82 | `disconnect` in place, keeping the invariant |

## Left out

- Socket.IO transport and every message the engine sends (`game:notification`, `game:moved`, `game:init_state`, `game:allow_buy`, `game:turn_change`, `game:card_drawn`, `game:buy_success`): these are output only. The purchase offer is returned by `HandleLanding` as a value. The lobbies' broadcasts are kept as an event list.
- `tiles:fetch`, and the database read in `startGame`: both are database I/O. The read in `startGame` becomes the `loaded` parameter.
- `Math.random`: the dice become parameters, and so does the card index, as `draw % |deck|`.
- The two dice faces: the engine reports them only in `game:moved`, so the handler methods receive their sum.
- The seat colour (`getRandomColor`): it is random and nothing reads it.
- The soundboard relay, the lobby's `lobby:init` and the legacy `init`, and the HTTP routes of `app.js`: none of them changes state.
- Real time: the model does not order the 1000 ms turn tick, the 1500 ms card timeouts and the 2000 ms `nextTurn` among themselves. Any pending callback may fire next. So the model allows more interleavings than the clock does, and its invariants hold for all of them.
- GameHandler.Game.StartGame: requires a game that is not running and at least one entrant. This is an assumption about the caller, which is not part of this model. `startGame` does not read `isGameRunning` and does not clear `turnTimer`. A second call would replace the players while the old interval keeps ticking, and the model does not cover that. The lobby broadcasts `game:begin` at most once (`LobbyHandler.LobbyValid`). With no entrants, `nextTurn` would compute a NaN index.
- What happens after a handler throws (`Faulted`): the model records the throw and leaves the state unchanged. How Node reports the uncaught error is not modelled.
- `toLowerCase`: modelled for A to Z only. No deck text has an accented capital inside the words the wording check looks for.
- Seat indices in the join handlers: the index is an integer. A negative, fractional or string index names an object property rather than an array element, and that is not modelled.
- LegacyLobby.Lobby.Join: ignores an index outside the four seats. `app.js` would grow the array there, as `lobby:join` does (see Findings). Its countdown test, `every`, would still see the empty seat.
- Player objects in pending cards: referenced by index. This matches the references as long as `startGame` runs once, which the model assumes (see `GameHandler.Game.StartGame` above).
- LegacyLobby.Lobby.Leave: keeps four seats when a leave without a name gives an index outside them. `app.js` writes `slots[index] = null` there, which grows the array. Its countdown test `every` then fails until a player joins at that index. The model still broadcasts and cancels a running countdown there, as the code does.

## Findings

| source | as written | input that shows it | evidently intended | confidence | as-written member | corrected member |
|---|---|---|---|---|---|---|
| server/src/handlers/lobbyHandler.js:24-38 | `lobby:join` does not check the seat index. An index past the end reads `undefined`, passes the guard, and grows the array. The countdown test counts non-null entries, not free seats | seats 0–2 taken, seat 3 empty, fourth player joins with `index: 4` | the index lies in 0..3, so that "four non-null entries" means "every seat taken" | high (not executed) | LobbyState.JoinPastEndStartsEarly | LobbyHandler.CountdownStartsWhenFull |

In the model, `LobbyState.JoinAsWritten` is the join as written. `LobbyState.Joined` checks the index against the four seats, and the lobby classes use it. With that check, `LobbyHandler.LobbyValid` proves that a running countdown always has all four seats taken. `LobbyHandler.BeginsWithFullTable` proves the same for the moment the game begins.
