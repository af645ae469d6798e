/**
 * The game-state machine: the board of moves, the winning combinations, the
 * player rotation and the winner fields, updated in place.
 */
module Game {
  import opened Rules
  import Rotation

  const DefaultBoardSize: nat := 3
  const DefaultPlayers: seq<Player> := [Player("X", "blue"), Player("O", "green")]

  class TicTacToeGame {
    /** The configured players, cycled through in order. */
    const players: seq<Player>
    const boardSize: nat
    /** The board: the cell at (r, c) holds the move last played there, or an unplayed move. */
    const moves: array2<Move>
    /** The winning combinations derived from the board geometry when the game was set up. */
    const winningCombos: seq<seq<Coord>>

    /** Position of the player rotation within `players`. */
    var turn: nat
    var currentPlayer: Player
    var hasWinner: bool
    var winnerCombo: seq<Coord>

    ghost predicate Valid()
      reads this, moves
    {
      moves.Length0 == boardSize && moves.Length1 == boardSize &&
      winningCombos == WinningCombos(boardSize) && CombosInBounds(winningCombos, boardSize) &&
      turn < |players| && currentPlayer == players[turn] &&
      (forall r, c :: 0 <= r < boardSize && 0 <= c < boardSize ==>
         moves[r, c].row == r && moves[r, c].col == c) &&
      (hasWinner ==> winnerCombo in winningCombos && boardSize > 0) &&
      (!hasWinner ==> winnerCombo == [])
    }

    /** The board as a value: row r, column c holds moves[r, c]. */
    ghost function Board(): (b: seq<seq<Move>>)
      reads moves
      requires moves.Length0 == boardSize && moves.Length1 == boardSize
      ensures |b| == boardSize && Square(b)
      ensures forall r, c :: 0 <= r < boardSize && 0 <= c < boardSize ==> b[r][c] == moves[r, c]
    {
      seq(boardSize, r requires 0 <= r < boardSize reads moves =>
        seq(boardSize, c requires 0 <= c < boardSize reads moves => moves[r, c]))
    }

    /**
     * Starts a game: every cell unplayed at its own coordinate, the winning
     * combinations derived, no winner, and the first player to move.
     */
    constructor (players: seq<Player>, boardSize: nat)
      requires |players| > 0
      ensures Valid() && fresh(moves)
      ensures this.players == players && this.boardSize == boardSize
      ensures Board() == FreshBoard(boardSize)
      ensures winningCombos == WinningCombos(boardSize)
      ensures turn == 0 && currentPlayer == players[0]
      ensures !hasWinner && winnerCombo == []
    {
      this.players := players;
      this.boardSize := boardSize;
      turn := 0;
      currentPlayer := players[0];
      winnerCombo := [];
      hasWinner := false;
      moves := new Move[boardSize, boardSize]((r, c) => Move(r, c, Unplayed));
      winningCombos := WinningCombos(boardSize);
      WinningCombosWellFormed(boardSize);
      new;
      BoardExtensionality(Board(), FreshBoard(boardSize));
    }

    /** A move may be played when nobody has won yet and its cell is still unplayed. */
    predicate IsValidMove(m: Move)
      reads this, moves
      requires Valid() && InBounds(boardSize, (m.row, m.col))
      ensures IsValidMove(m) <==> !hasWinner && LabelAt(Board(), (m.row, m.col)) == Unplayed
    {
      !hasWinner && moves[m.row, m.col].mark == Unplayed
    }

    /** The recorded winner flag; a winner is recorded exactly when a winning combination is. */
    function HasWinner(): (won: bool)
      reads this, moves
      requires Valid()
      ensures won <==> winnerCombo != []
      ensures won ==> winnerCombo in winningCombos
    {
      hasWinner
    }

    /** Every cell of row r from column c on is played. */
    function RowPlayedFrom(r: nat, c: nat): (played: bool)
      reads moves
      requires r < moves.Length0 && c <= moves.Length1
      decreases moves.Length1 - c
      ensures played <==> forall j :: c <= j < moves.Length1 ==> moves[r, j].mark != Unplayed
    {
      if c == moves.Length1 then true
      else moves[r, c].mark != Unplayed && RowPlayedFrom(r, c + 1)
    }

    /** Every cell of every row from row r on is played. */
    function RowsPlayedFrom(r: nat): (played: bool)
      reads moves
      requires r <= moves.Length0
      decreases moves.Length0 - r
      ensures played <==> forall i, j :: r <= i < moves.Length0 && 0 <= j < moves.Length1 ==> moves[i, j].mark != Unplayed
    {
      if r == moves.Length0 then true
      else RowPlayedFrom(r, 0) && RowsPlayedFrom(r + 1)
    }

    /** The game is tied when nobody has won and every cell is played. */
    predicate IsTied()
      reads this, moves
      requires Valid()
      ensures IsTied() <==> !hasWinner && AllPlayed(Board())
    {
      !hasWinner && RowsPlayedFrom(0)
    }

    /**
     * Writes `m` over its cell, then scans the winning combinations in order
     * and records the first one that is won; the turn is left alone.
     */
    method ProcessMove(m: Move)
      requires Valid() && InBounds(boardSize, (m.row, m.col))
      modifies this, moves
      ensures Valid()
      ensures Board() == Place(old(Board()), m)
      ensures turn == old(turn) && currentPlayer == old(currentPlayer)
      ensures FirstWin(Board(), winningCombos, 0).Some? ==>
                hasWinner && winnerCombo == winningCombos[FirstWin(Board(), winningCombos, 0).value]
      ensures FirstWin(Board(), winningCombos, 0).None? ==>
                hasWinner == old(hasWinner) && winnerCombo == old(winnerCombo)
    {
      ghost var before := Board();
      moves[m.row, m.col] := m;
      BoardExtensionality(Board(), Place(before, m));
      var found := FindFirstWin();
      if found.Some? {
        IsWinIffUniform(Board(), winningCombos[found.value]);
        hasWinner := true;
        winnerCombo := winningCombos[found.value];
      }
    }

    /**
     * The scan of ProcessMove: the combinations in order, stopping at the
     * first one whose label set is a single played label.
     */
    method FindFirstWin() returns (found: Option<nat>)
      requires moves.Length0 == boardSize && moves.Length1 == boardSize
      requires CombosInBounds(winningCombos, boardSize)
      ensures found == FirstWin(Board(), winningCombos, 0)
    {
      ghost var board := Board();
      var i := 0;
      while i < |winningCombos|
        invariant 0 <= i <= |winningCombos|
        invariant forall j :: 0 <= j < i ==> !IsWin(board, winningCombos[j])
      {
        var results := LabelsOf(winningCombos[i]);
        if |results| == 1 && Unplayed !in results {
          FirstWinAt(board, winningCombos, i);
          return Some(i);
        }
        i := i + 1;
      }
      NoWin(board, winningCombos);
      return None;
    }

    /** The labels found on the cells of a combination, collected into a set. */
    method LabelsOf(combo: seq<Coord>) returns (labels: set<string>)
      requires moves.Length0 == boardSize && moves.Length1 == boardSize
      requires ComboInBounds(combo, boardSize)
      ensures labels == ComboLabels(Board(), combo)
    {
      labels := set k | 0 <= k < |combo| :: moves[combo[k].0, combo[k].1].mark;
    }

    /** Hands the turn to the next player of the rotation. */
    method TogglePlayer()
      requires Valid()
      modifies this
      ensures Valid()
      ensures turn == Rotation.Advance(old(turn), |players|)
      ensures currentPlayer == players[turn]
      ensures hasWinner == old(hasWinner) && winnerCombo == old(winnerCombo)
    {
      turn := (turn + 1) % |players|;
      currentPlayer := players[turn];
    }

    /** Clears every cell back to unplayed and forgets the winner; the turn is left alone. */
    method ResetGame()
      requires Valid()
      modifies this, moves
      ensures Valid()
      ensures Board() == FreshBoard(boardSize)
      ensures !hasWinner && winnerCombo == []
      ensures turn == old(turn) && currentPlayer == old(currentPlayer)
    {
      var r := 0;
      while r < boardSize
        invariant 0 <= r <= boardSize
        invariant forall i, j :: 0 <= i < r && 0 <= j < boardSize ==> moves[i, j] == Move(i, j, Unplayed)
        modifies moves
      {
        var c := 0;
        while c < boardSize
          invariant 0 <= c <= boardSize
          invariant forall i, j :: 0 <= i < r && 0 <= j < boardSize ==> moves[i, j] == Move(i, j, Unplayed)
          invariant forall j :: 0 <= j < c ==> moves[r, j] == Move(r, j, Unplayed)
          modifies moves
        {
          moves[r, c] := Move(r, c, Unplayed);
          c := c + 1;
        }
        r := r + 1;
      }
      hasWinner := false;
      winnerCombo := [];
      BoardExtensionality(Board(), FreshBoard(boardSize));
    }
  }
}
