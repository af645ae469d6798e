/**
 * Properties of the rules and of the game that relate several operations:
 * how playing a cell changes which combinations are won, what a tie or a
 * win means for further moves, and completing a row.
 */
module Properties {
  import opened Rules
  import Game

  /** Playing a cell outside a combination leaves that combination's labels as they were. */
  lemma ComboLabelsUntouched(board: seq<seq<Move>>, combo: seq<Coord>, m: Move)
    requires Square(board) && ComboInBounds(combo, |board|) && InBounds(|board|, (m.row, m.col))
    requires (m.row, m.col) !in combo
    ensures ComboLabels(Place(board, m), combo) == ComboLabels(board, combo)
  {
    var after := Place(board, m);
    forall i | 0 <= i < |combo| ensures LabelAt(after, combo[i]) == LabelAt(board, combo[i]) {
      assert combo[i] != (m.row, m.col);
    }
  }

  /**
   * Playing an unplayed cell never undoes a win: every cell of a won
   * combination is played, so the move lands outside it.
   */
  lemma {:induction false} WinSurvivesPlay(board: seq<seq<Move>>, combo: seq<Coord>, m: Move)
    requires Square(board) && ComboInBounds(combo, |board|) && InBounds(|board|, (m.row, m.col))
    requires LabelAt(board, (m.row, m.col)) == Unplayed
    requires IsWin(board, combo)
    ensures IsWin(Place(board, m), combo)
  {
    IsWinIffUniform(board, combo);
    assert (m.row, m.col) !in combo;
    ComboLabelsUntouched(board, combo, m);
  }

  /**
   * A win that appears when `m` is played on a board where no combination was
   * won lies on a combination through m's cell, and every cell of it carries
   * m's label: the player who just moved is the winner.
   */
  lemma {:induction false} NewWinGoesThroughMove(board: seq<seq<Move>>, combos: seq<seq<Coord>>, m: Move)
    requires Square(board) && CombosInBounds(combos, |board|) && InBounds(|board|, (m.row, m.col))
    requires FirstWin(board, combos, 0).None?
    requires FirstWin(Place(board, m), combos, 0).Some?
    ensures var k := FirstWin(Place(board, m), combos, 0).value;
      (m.row, m.col) in combos[k] &&
      forall i :: 0 <= i < |combos[k]| ==> LabelAt(Place(board, m), combos[k][i]) == m.mark
  {
    var after := Place(board, m);
    var k := FirstWin(after, combos, 0).value;
    var combo := combos[k];
    assert !IsWin(board, combo);
    if (m.row, m.col) !in combo {
      ComboLabelsUntouched(board, combo, m);
      assert false;
    }
    var i :| 0 <= i < |combo| && combo[i] == (m.row, m.col);
    IsWinIffUniform(after, combo);
    assert LabelAt(after, combo[i]) == m.mark;
  }

  /** If nothing is won after playing an unplayed cell, nothing was won before it either. */
  lemma {:induction false} NoWinBeforePlay(board: seq<seq<Move>>, combos: seq<seq<Coord>>, m: Move)
    requires Square(board) && CombosInBounds(combos, |board|) && InBounds(|board|, (m.row, m.col))
    requires LabelAt(board, (m.row, m.col)) == Unplayed
    requires FirstWin(Place(board, m), combos, 0).None?
    ensures FirstWin(board, combos, 0).None?
  {
    var earlier := FirstWin(board, combos, 0);
    if earlier.Some? {
      WinSurvivesPlay(board, combos[earlier.value], m);
      assert false;
    }
  }

  /** Once the game is won or tied, no move is valid. */
  lemma GameOverAdmitsNoMove(g: Game.TicTacToeGame, m: Move)
    requires g.Valid() && InBounds(g.boardSize, (m.row, m.col))
    requires g.HasWinner() || g.IsTied()
    ensures !g.IsValidMove(m)
  {
  }

  /** A tie and a win exclude each other, and a tie needs every cell played. */
  lemma TieExcludesWin(g: Game.TicTacToeGame)
    requires g.Valid() && g.IsTied()
    ensures !g.HasWinner()
    ensures forall r, c :: 0 <= r < g.boardSize && 0 <= c < g.boardSize ==> g.moves[r, c].mark != Unplayed
  {
  }

  /** On a fresh board of at least one cell nothing is won and nothing is tied. */
  lemma {:induction false} FreshBoardIsOpen(n: nat)
    requires n > 0
    ensures !AllPlayed(FreshBoard(n))
    ensures FirstWin(FreshBoard(n), WinningCombos(n), 0) == None
  {
    var board: seq<seq<Move>> := FreshBoard(n);
    var combos := WinningCombos(n);
    WinningCombosWellFormed(n);
    assert board[0][0].mark == Unplayed;
    forall k | 0 <= k < |combos| ensures !IsWin(board, combos[k]) {
      UnplayedCellBlocksWin(board, combos[k], 0);
    }
    NoWin(board, combos);
  }

  /** The board after playing `ms` one after another. */
  function PlayAll(board: seq<seq<Move>>, ms: seq<Move>): (b: seq<seq<Move>>)
    requires Square(board)
    requires forall i :: 0 <= i < |ms| ==> InBounds(|board|, (ms[i].row, ms[i].col))
    ensures |b| == |board| && Square(b)
    decreases |ms|
  {
    if ms == [] then board else PlayAll(Place(board, ms[0]), ms[1..])
  }

  /** Playing one more move after a sequence is placing it on the board the sequence produced. */
  lemma {:induction false} PlayAllSnoc(board: seq<seq<Move>>, ms: seq<Move>, m: Move)
    requires Square(board)
    requires forall i :: 0 <= i < |ms| ==> InBounds(|board|, (ms[i].row, ms[i].col))
    requires InBounds(|board|, (m.row, m.col))
    ensures PlayAll(board, ms + [m]) == Place(PlayAll(board, ms), m)
    decreases |ms|
  {
    if ms == [] {
      assert [m][1..] == [];
    } else {
      assert (ms + [m])[1..] == ms[1..] + [m];
      PlayAllSnoc(Place(board, ms[0]), ms[1..], m);
    }
  }

  /** The moves that fill row r with label `mark`, left to right. */
  function RowMoves(n: nat, r: nat, mark: string): seq<Move>
  {
    seq(n, c => Move(r, c, mark))
  }

  /** Filling row r column by column from column c on: that part of row r has the label, the rest is untouched. */
  lemma {:induction false} PlayRowFrom(board: seq<seq<Move>>, r: nat, c: nat, mark: string, ms: seq<Move>)
    requires Square(board) && r < |board| && c <= |board|
    requires ms == RowMoves(|board|, r, mark)[c..]
    ensures forall i :: 0 <= i < |ms| ==> InBounds(|board|, (ms[i].row, ms[i].col))
    ensures forall i, j {:trigger PlayAll(board, ms)[i][j]} :: 0 <= i < |board| && 0 <= j < |board| ==>
      PlayAll(board, ms)[i][j] == if i == r && c <= j then Move(r, j, mark) else board[i][j]
    decreases |board| - c
  {
    if c < |board| {
      assert ms[0] == Move(r, c, mark);
      var placed := Place(board, ms[0]);
      PlayRowFrom(placed, r, c + 1, mark, ms[1..]);
      assert PlayAll(board, ms) == PlayAll(placed, ms[1..]);
      forall i, j | 0 <= i < |board| && 0 <= j < |board|
        ensures PlayAll(board, ms)[i][j] == if i == r && c <= j then Move(r, j, mark) else board[i][j]
      {
        assert PlayAll(placed, ms[1..])[i][j] == if i == r && c + 1 <= j then Move(r, j, mark) else placed[i][j];
        if (i, j) != (r, c) {
          assert placed[i][j] == board[i][j];
        }
      }
    } else {
      assert ms == [];
      assert PlayAll(board, ms) == board;
    }
  }

  /**
   * Filling row r of a fresh board with one played label wins, and the scan
   * records row r's own combination (0 <= r < n), because every earlier row
   * still holds an unplayed cell.
   */
  lemma {:induction false} CompletingRowWins(n: nat, r: nat, mark: string)
    requires r < n && mark != Unplayed
    ensures var b := PlayAll(FreshBoard(n), RowMoves(n, r, mark));
      FirstWin(b, WinningCombos(n), 0) == Some(r)
    ensures WinningCombos(n)[r] == seq(n, c => (r, c))
  {
    var start := FreshBoard(n);
    assert RowMoves(n, r, mark)[0..] == RowMoves(n, r, mark);
    PlayRowFrom(start, r, 0, mark, RowMoves(n, r, mark));
    var b := PlayAll(start, RowMoves(n, r, mark));
    var combos := WinningCombos(n);
    WinningCombosWellFormed(n);
    forall j | 0 <= j < r ensures !IsWin(b, combos[j]) {
      assert combos[j][0] == (j, 0);
      UnplayedCellBlocksWin(b, combos[j], 0);
    }
    assert forall i :: 0 <= i < n ==> combos[r][i] == (r, i) && b[r][i] == Move(r, i, mark);
    IsWinIffUniform(b, combos[r]);
    FirstWinAt(b, combos, r);
  }
}
