/** The values the game publishes on the event broadcaster, one constructor
    per channel, each with the payload the script passes to `raiseEvent`. */
module GameEvents {
  import opened Wrappers

  /** `new Player(symbol)`: a player is known by its display symbol. */
  datatype Player = Player(symbol: string)

  datatype Ev =
    | UpdateBoard(snapshot: seq<Option<string>>)  // copy of the board array
    | PlayerChange(player: Player)                // the player now to move
    | GameWin(pattern: seq<int>)                  // the winning triple
    | GameOver(message: string)                   // end-of-game text
}
