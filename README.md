# Tic-tac-toe core: event broadcaster, board and game controller

A Dafny model of the three in-memory components of a browser tic-tac-toe
game (`script.js`):

- **Event broadcaster** (`event_bus.dfy`, module `EventBus`): a registry from
  channel names to the ordered list of handlers subscribed to each. It is a
  class over `map<string, seq<Handler>>`. Handlers are opaque identities, and
  `RaiseEvent` returns the handlers it would call, in order, instead of
  calling them.
- **Board** (`board.dfy`, module `GameBoard`): a class over a nine-slot
  `array<Option<string>>` and the list `availablePositions`. Its invariant
  `Valid()` says three things. A position is in the list exactly when its
  slot is empty. The list stays strictly increasing within 0..8. Nothing
  past the JavaScript length of the board array has been written.
  `AvailableAreEmptyPositions` shows that the list is then exactly the
  ordered list of empty slots, so `GetEmptyCellsCount` is the number of
  empty slots.
- **Game controller** (`game.dfy`, module `Game`): the current player index
  over the players X and O, and the fixed table of eight winning triples. It
  has win detection (`Complete`, `FindWinFrom`, `FindWin`) and the ranked
  verdict of a round (`Judge`: win, then tie, then the next player's turn).
  Everything the board and the controller raise is recorded in order in the
  controller's `trace`, one `Ev` value per raised event (`events.dfy`).
- `seqs.dfy` holds the array operations the script relies on:
  `findIndex` (`FindIndex`) and `splice(i, 1)` (`RemoveAt`). It also holds
  facts about strictly increasing lists. `wrappers.dfy` holds `Option`,
  whose `None` stands for JavaScript's `undefined`. `PlayRound` also uses
  `None` for a non-integer input.

In these places the code behaves differently from what a reader might expect, and the model follows the code:

- **No finished state.** The controller has no "won" or "tied" state that
  stops further moves. After a win the index does not advance, and the
  winner's next click on a free cell still places their symbol
  (`PlayAfterWin`). After a tie the board is full, so every click is rejected.
- **Board snapshot length.** The `UpdateBoard` payload is `[...board]`. Its
  length is the JavaScript length of the board array: one past the highest
  slot written since the last reset. It is not always nine. The model keeps
  that length in `Board.length` and publishes `cells[..length]`.
- **Negative positions.** `getSymbolAt` with a negative position reads a
  missing property and gives `undefined`. The model returns `None`.
- **Broadcaster reset.** `reset()` does not clear the registry (see
  Findings).

## Model

| member | source | states |
|---|---|---|
| `Seqs.FindIndex` | script.js:162 | the result is -1 exactly when the value is absent; otherwise it is the first index holding the value |
| `Seqs.RemoveAt` | script.js:167 | splicing one index out leaves one element fewer: the multiset minus exactly the removed element |
| `Seqs.RemoveAtIncreasing` | script.js:167 | splicing keeps a strictly increasing list strictly increasing and removes exactly the spliced value |
| `Seqs.IncreasingUnique` | script.js:152-172 | two strictly increasing lists with the same members are equal, so the free list is determined by the empty slots |
| `EventBus.WithChannel` | script.js:36-44 | creating a channel adds it with no handlers if it is missing and keeps every existing channel as it was |
| `EventBus.RemoveFirst` | script.js:30-33 | removing a handler takes exactly one occurrence out of the list if it is present, and leaves the list unchanged if it is absent |
| `EventBus.RemoveFirstAt` | script.js:31-32 | splicing out the index that `findIndex` reports is the same as removing the first occurrence |
| `EventBus.UnsubscribeOnce` | script.js:22-34 | a handler subscribed once is no longer on the channel after it is unsubscribed |
| `EventBus.UnsubscribeKeepsDuplicates` | script.js:31-32 | a handler subscribed several times loses exactly one subscription; the later duplicates remain |
| `EventBus.EventBroadcaster.constructor` | script.js:11 | the registry starts with no channels |
| `EventBus.EventBroadcaster.Subscribe` | script.js:13-20 | the handlers are appended in argument order to the channel's list, which is created if missing; no other channel changes |
| `EventBus.EventBroadcaster.Unsubscribe` | script.js:22-34 | only the first identical occurrence of a truthy handler is removed; a missing channel, an absent handler or a falsy handler leaves the registry unchanged |
| `EventBus.EventBroadcaster.CreateEvent` | script.js:36-44 | a missing channel gets an empty list; an existing channel changes nothing |
| `EventBus.EventBroadcaster.DeleteEvent` | script.js:46-49 | the channel and all its subscribers are removed; nothing else changes |
| `EventBus.EventBroadcaster.RaiseEvent` | script.js:51-65 | the channel's handlers are called once each, in subscription order; a missing channel is created empty and nothing is called |
| `EventBus.EventBroadcaster.ResetAsWritten` | script.js:67-69 | reset always throws, because it assigns to the constant registry binding |
| `EventBus.EventBroadcaster.Reset` | script.js:67-69 | the intended reset: every channel and subscription is gone |
| `EventBus.ResetAsWrittenKeepsHandlers` | script.js:67-69 | with reset as written, a handler subscribed before the reset is still called afterwards |
| `EventBus.ResetSilencesChannels` | script.js:67-69 | with the intended reset, raising a previously registered channel calls no handler |
| `GameBoard.EmptyPositionsSpec` | script.js:152-172 | the reference list of empty slots is strictly increasing and holds exactly the empty positions |
| `GameBoard.Board.constructor` | script.js:152-158 | a new board is reset: nine free positions and every slot empty, as the controller leaves it during load (script.js:205, 223) |
| `GameBoard.Board.AvailableAreEmptyPositions` | script.js:152-172 | under the board invariant, the free list is exactly the ordered list of empty slots |
| `GameBoard.Board.GetEmptyCellsCount` | script.js:191 | the free-list length is the number of empty slots, at most nine |
| `GameBoard.Board.GetSymbolAt` | script.js:184-188 | positions outside 0..8 read as absent; inside, a slot is absent exactly when its position is free, and otherwise holds the stored symbol (the read itself is the module-level `GameBoard.SymbolAt`, which the win check also uses) |
| `GameBoard.Board.ResetBoard` | script.js:152-158 | the result is a fresh empty board whose free list is 0..8 in order, so the count is nine and every slot is absent; the invariant is established |
| `GameBoard.Board.UpdateBoardPosition` | script.js:161-172 | it succeeds exactly when the position is free. On success it fills only that slot, splices the position out, lowers the count by one and publishes one copy of the board. On failure nothing changes and nothing is published. The invariant is kept, so a position is filled at most once between resets |
| `Game.Complete` | script.js:246 | a pattern is complete exactly when each of its positions reads as the mover's symbol |
| `Game.FindWinFrom` | script.js:246 | it gives the index of the first complete pattern at or after the start, or none when no later pattern is complete |
| `Game.FindWin` | script.js:207-216 | a pattern is found exactly when some winning triple is complete; it is the first complete one in table order |
| `Game.Judge` | script.js:245-256 | the round is a win exactly when some triple is complete, with the first complete triple, even on a full board; otherwise a tie exactly when no slot is empty; otherwise the next player's turn |
| `Game.TopRowWins` | script.js:245-250 | three X's across the top row win with the triple [0, 1, 2] |
| `Game.WinOnFullBoard` | script.js:246-252 | a move that fills the board and completes a line is a win, not a tie |
| `Game.FullBoardTie` | script.js:251-252 | a full board without a line for the mover is a tie |
| `Game.GameController.constructor` | script.js:200-205 | construction initialises the game: an empty board, X to move, and X announced |
| `Game.GameController.InitializeController` | script.js:222-228 | the board is reset, the index becomes 0, and exactly one player change announces X |
| `Game.GameController.SwitchPlayer` | script.js:230-233 | the index wraps modulo two and the new player is announced |
| `Game.GameController.PlayRound` | script.js:235-243 | a non-integer or a position that is not free changes neither board nor index and raises nothing. Otherwise the mover's symbol fills exactly that slot, the board copy is raised, and then the verdict's events follow |
| `Game.GameController.ConcludeRound` | script.js:245-256 | a win raises the first winning triple and then the winner's message, and keeps the index. Otherwise a full board raises only the tie message. Otherwise the index advances modulo two and the new player is announced (the event list for each verdict is the helper `Game.Announce`, which `PlayRound`'s contract also uses) |
| `Game.PlayAfterWin` | script.js:235-250 | after X has won, X keeps the turn, and X's next click on a free cell places an X and announces the win again |

## Left out

- The screen controller (script.js:84-143) is not part of this model. It covers DOM queries, dataset attributes, the modal dialog and click listeners. It matters here only because it raises `PlayerInput` (a click between cells gives `NaN`, modelled as `None`) and `RestartGame`.
- GameBoard.Board.constructor: the board before its first reset is not modelled; in the script `board` and `availablePositions` are `undefined` until the controller's `initializeController` resets them during load (script.js:205, 223), and every board operation would throw on that state, which the script never exposes. The model's constructor resets at once.
- The console diagnostics and `logBoard` (script.js:174-182) are not modelled: they only write to the console.
- Executing handler callbacks is not modelled, and neither are publishes made from inside a handler. `RaiseEvent` returns the handlers it would call.
- The board and the controller do not publish through an `EventBroadcaster` object. What they raise is recorded in order in `GameController.trace`; the board's `UpdateBoardPosition` returns what it raised. As a result, the model does not track the empty channels those raises create on the broadcaster when nothing is subscribed.
- The controller's subscriptions of `playRound` and `initializeController` to `PlayerInput` and `RestartGame` (script.js:219-220) are not modelled. The model calls `PlayRound` and `InitializeController` directly.
- `playRound`'s return value (`false` for a non-integer) is not modelled: the broadcaster ignores what handlers return.
- The `!!board` test in `playRound` is always true, so it is dropped.
- The `Player` constructor's `new.target` check (script.js:5) is not modelled: it is a JavaScript runtime detail.
- The disabled random choice of the first player (script.js:225) is not modelled, because it is commented out in the source.
- JavaScript object-prototype keys used as channel names are not modelled: channel names are plain map keys.
- Positions are unbounded integers. JavaScript number precision beyond 2^53 is not modelled; such positions are never free anyway.

## Findings

| source | as written | input that shows it | evidently intended | confidence | as-written member | corrected member |
|---|---|---|---|---|---|---|
| script.js:67-69 | `reset` assigns a new object to `events`, which is declared `const` at script.js:11, so every call throws a TypeError and clears nothing | subscribe a handler to `GameOver`, call `reset()`, raise `GameOver`: the handler is still called | reset empties the registry, so no previously subscribed handler is called | high; not executed | `EventBus.EventBroadcaster.ResetAsWritten` (with `EventBus.ResetAsWrittenKeepsHandlers`) | `EventBus.EventBroadcaster.Reset` (with `EventBus.ResetSilencesChannels`) |
