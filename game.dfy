/** The `gameController` module: whose turn it is, the placement of the
    mover's symbol, and the verdict after each successful placement. */
module Game {
  import opened Wrappers
  import opened GameEvents
  import opened GameBoard

  const PLAYERS: seq<Player> := [Player("X"), Player("O")]

  /** Rows top to bottom, columns left to right, then the two diagonals. */
  const WIN_POSITIONS: seq<seq<int>> := [
    [0, 1, 2], [3, 4, 5], [6, 7, 8],
    [0, 3, 6], [1, 4, 7], [2, 5, 8],
    [0, 4, 8], [2, 4, 6]
  ]

  const TIE_MESSAGE: string := "The game ended in a tie."

  function WinMessage(symbol: string): string {
    "The winner is " + symbol
  }

  /** `!pattern.some(pos => board.getSymbolAt(pos) !== symbol)`: no position
      of `pattern` holds anything but `symbol`. */
  predicate Complete(cells: seq<Option<string>>, pattern: seq<int>, symbol: string)
    ensures Complete(cells, pattern, symbol) <==>
            forall k :: 0 <= k < |pattern| ==> SymbolAt(cells, pattern[k]) == Some(symbol)
  {
    pattern == [] || (SymbolAt(cells, pattern[0]) == Some(symbol) && Complete(cells, pattern[1..], symbol))
  }

  /** The index of the first complete pattern at or after `from`. */
  function FindWinFrom(cells: seq<Option<string>>, symbol: string, from: nat): (r: Option<nat>)
    requires from <= |WIN_POSITIONS|
    ensures r != None ==> from <= r.value < |WIN_POSITIONS|
                          && Complete(cells, WIN_POSITIONS[r.value], symbol)
                          && forall j :: from <= j < r.value ==> !Complete(cells, WIN_POSITIONS[j], symbol)
    ensures r == None ==> forall j :: from <= j < |WIN_POSITIONS| ==> !Complete(cells, WIN_POSITIONS[j], symbol)
    decreases |WIN_POSITIONS| - from
  {
    if from == |WIN_POSITIONS| then None
    else if Complete(cells, WIN_POSITIONS[from], symbol) then Some(from)
    else FindWinFrom(cells, symbol, from + 1)
  }

  /** `winPositions.find(...)`: the first winning pattern in table order
      whose three positions all hold `symbol`. */
  function FindWin(cells: seq<Option<string>>, symbol: string): (r: Option<seq<int>>)
    ensures r != None <==> exists i :: 0 <= i < |WIN_POSITIONS| && Complete(cells, WIN_POSITIONS[i], symbol)
    ensures r != None ==> exists i :: 0 <= i < |WIN_POSITIONS| && r.value == WIN_POSITIONS[i]
                                      && Complete(cells, WIN_POSITIONS[i], symbol)
                                      && forall j :: 0 <= j < i ==> !Complete(cells, WIN_POSITIONS[j], symbol)
  {
    match FindWinFrom(cells, symbol, 0)
    case None => None
    case Some(i) => Some(WIN_POSITIONS[i])
  }

  /** The outcome of a round, in priority order. */
  datatype Verdict = Win(pattern: seq<int>) | Tie | Continue

  /** `concludeRound`'s decision: a win for the mover beats a full board,
      and a full board without a win is a tie. */
  function Judge(cells: seq<Option<string>>, symbol: string, emptyCount: nat): (v: Verdict)
    ensures v.Win? <==> exists i :: 0 <= i < |WIN_POSITIONS| && Complete(cells, WIN_POSITIONS[i], symbol)
    ensures v.Win? ==> exists i :: 0 <= i < |WIN_POSITIONS| && v.pattern == WIN_POSITIONS[i]
                                   && Complete(cells, WIN_POSITIONS[i], symbol)
                                   && forall j :: 0 <= j < i ==> !Complete(cells, WIN_POSITIONS[j], symbol)
    ensures v.Tie? <==> !v.Win? && emptyCount == 0
    ensures v.Continue? <==> !v.Win? && emptyCount > 0
  {
    match FindWin(cells, symbol)
    case Some(pattern) => Win(pattern)
    case None => if emptyCount == 0 then Tie else Continue
  }

  /** The events `concludeRound` raises for a verdict; `next` is the index
      of the player to move afterwards. */
  function Announce(v: Verdict, symbol: string, next: nat): seq<Ev>
    requires next < |PLAYERS|
  {
    match v
    case Win(pattern) => [GameWin(pattern), GameOver(WinMessage(symbol))]
    case Tie => [GameOver(TIE_MESSAGE)]
    case Continue => [PlayerChange(PLAYERS[next])]
  }

  class GameController {
    const board: Board
    var currentPlayerIndex: nat
    /** Everything the controller and its board have raised, in order. */
    var trace: seq<Ev>

    ghost predicate Valid()
      reads this, board, board.cells
    {
      board.Valid() && currentPlayerIndex < |PLAYERS|
    }

    constructor (board: Board)
      modifies board
      ensures Valid() && this.board == board && fresh(board.cells)
      ensures currentPlayerIndex == 0 && trace == [PlayerChange(PLAYERS[0])]
      ensures board.GetEmptyCellsCount() == SIZE && forall p :: board.GetSymbolAt(p) == None
    {
      this.board := board;
      currentPlayerIndex := 0;
      trace := [];
      new;
      InitializeController();
    }

    /** `initializeController`: an empty board, and X to move. */
    method InitializeController()
      modifies this, board
      ensures Valid() && fresh(board.cells)
      ensures currentPlayerIndex == 0 && trace == old(trace) + [PlayerChange(PLAYERS[0])]
      ensures board.GetEmptyCellsCount() == SIZE && forall p :: board.GetSymbolAt(p) == None
    {
      board.ResetBoard();
      SwitchPlayer(0);
    }

    /** `switchPlayer(index)`: the index wraps around the two players and
        the new player is announced. */
    method SwitchPlayer(index: nat)
      requires board.Valid()
      modifies this
      ensures Valid()
      ensures currentPlayerIndex == index % |PLAYERS|
      ensures trace == old(trace) + [PlayerChange(PLAYERS[currentPlayerIndex])]
    {
      currentPlayerIndex := index % |PLAYERS|;
      trace := trace + [PlayerChange(PLAYERS[currentPlayerIndex])];
    }

    /** `playRound(position)`: `None` is a non-integer input. A rejected
        input changes nothing and raises nothing; an accepted one places the
        mover's symbol and then concludes the round. There is no finished
        state: after a win the same player may go on placing. */
    method PlayRound(input: Option<int>)
      requires Valid()
      modifies this, board, board.cells
      ensures Valid() && board.cells == old(board.cells)
      ensures input == None || input.value !in old(board.availablePositions) ==>
        && board.cells[..] == old(board.cells[..])
        && board.length == old(board.length)
        && board.availablePositions == old(board.availablePositions)
        && currentPlayerIndex == old(currentPlayerIndex)
        && trace == old(trace)
      ensures input != None && input.value in old(board.availablePositions) ==>
        var position, mover := input.value, PLAYERS[old(currentPlayerIndex)].symbol;
        var v := Judge(board.cells[..], mover, board.GetEmptyCellsCount());
        && 0 <= position < SIZE
        && board.cells[..] == old(board.cells[..])[position := Some(mover)]
        && multiset(board.availablePositions) == multiset(old(board.availablePositions)) - multiset{position}
        && currentPlayerIndex == (if v.Continue? then (old(currentPlayerIndex) + 1) % |PLAYERS| else old(currentPlayerIndex))
        && trace == old(trace) + [UpdateBoard(board.cells[..board.length])] + Announce(v, mover, currentPlayerIndex)
    {
      if input == None {
        return;
      }
      var symbol := PLAYERS[currentPlayerIndex].symbol;
      var placed, published := board.UpdateBoardPosition(input.value, symbol);
      trace := trace + published;
      if placed {
        ConcludeRound(symbol);
      }
    }

    /** `concludeRound(symbol)`: a win raises the first winning pattern and
        the winner's message and keeps the turn; otherwise a full board raises
        the tie message; otherwise the turn passes to the other player. */
    method ConcludeRound(symbol: string)
      requires Valid()
      modifies this
      ensures Valid()
      ensures var v := Judge(board.cells[..], symbol, board.GetEmptyCellsCount());
        && currentPlayerIndex == (if v.Continue? then (old(currentPlayerIndex) + 1) % |PLAYERS| else old(currentPlayerIndex))
        && trace == old(trace) + Announce(v, symbol, currentPlayerIndex)
    {
      var win := FindWin(board.cells[..], symbol);
      if win != None {
        trace := trace + [GameWin(win.value), GameOver(WinMessage(symbol))];
      } else if board.GetEmptyCellsCount() == 0 {
        trace := trace + [GameOver(TIE_MESSAGE)];
      } else {
        SwitchPlayer(currentPlayerIndex + 1);
      }
    }
  }

  /** Three X's across the top row win with that row. */
  lemma TopRowWins()
    ensures Judge([Some("X"), Some("X"), Some("X"), None, None, None, None, None, None], "X", 6)
            == Win([0, 1, 2])
  {
  }

  /** A move that fills the board and completes a line is a win, not a tie. */
  lemma WinOnFullBoard()
    ensures Judge([Some("X"), Some("O"), Some("X"), Some("O"), Some("X"), Some("O"), Some("O"), Some("X"), Some("X")], "X", 0)
            == Win([0, 4, 8])
  {
    var cells := [Some("X"), Some("O"), Some("X"), Some("O"), Some("X"), Some("O"), Some("O"), Some("X"), Some("X")];
    assert FindWinFrom(cells, "X", 6) == Some(6);
  }

  /** A full board without a line for the mover is a tie. */
  lemma FullBoardTie()
    ensures Judge([Some("X"), Some("O"), Some("X"), Some("X"), Some("O"), Some("O"), Some("O"), Some("X"), Some("X")], "X", 0)
            == Tie
  {
  }

  /** Nothing ends the game: after X has won on the top row, X keeps the
      turn and X's next click on a free cell still places an X. */
  method PlayAfterWin(game: GameController)
    requires game.Valid() && game.currentPlayerIndex == 0
    requires game.board.cells[..] == [Some("X"), Some("X"), Some("X"), Some("O"), Some("O"), None, None, None, None]
    modifies game, game.board, game.board.cells
    ensures game.board.cells[..] == [Some("X"), Some("X"), Some("X"), Some("O"), Some("O"), None, None, None, Some("X")]
    ensures game.currentPlayerIndex == 0
    ensures game.trace == old(game.trace)
                          + [UpdateBoard(game.board.cells[..]), GameWin([0, 1, 2]), GameOver("The winner is X")]
  {
    assert game.board.GetSymbolAt(8) == None;
    game.PlayRound(Some(8));
    assert game.board.cells[..] == [Some("X"), Some("X"), Some("X"), Some("O"), Some("O"), None, None, None, Some("X")];
    WinAfterWin(game.board.GetEmptyCellsCount());
    assert WinMessage("X") == "The winner is X";
    assert game.board.cells[..game.board.length] == game.board.cells[..];
    assert Judge(game.board.cells[..], "X", game.board.GetEmptyCellsCount()) == Win([0, 1, 2]);
    assert game.trace == old(game.trace) + [UpdateBoard(game.board.cells[..])] + Announce(Win([0, 1, 2]), "X", 0);
  }

  lemma WinAfterWin(emptyCount: nat)
    ensures Judge([Some("X"), Some("X"), Some("X"), Some("O"), Some("O"), None, None, None, Some("X")], "X", emptyCount)
            == Win([0, 1, 2])
  {
  }
}
