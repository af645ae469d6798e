/**
 * Values of the tic-tac-toe game and the pure rules over a board value:
 * the board geometry, the winning combinations derived from it, and the
 * test that decides whether a combination is won.
 */
module Rules {

  /** A player: the label stamped on the cells it plays, and a colour the game only carries. */
  datatype Player = Player(mark: string, color: string)

  /** A move: a cell coordinate and the label of whoever played it; "" marks an unplayed cell. */
  datatype Move = Move(row: int, col: int, mark: string)

  /** A (row, column) coordinate, as the source's tuples. */
  type Coord = (int, int)

  datatype Option<T> = None | Some(value: T)

  /** The label of a cell nobody has played yet. */
  const Unplayed: string := ""

  predicate InBounds(n: nat, p: Coord)
  {
    0 <= p.0 < n && 0 <= p.1 < n
  }

  /** A board is a square grid: as many rows as cells in each row. */
  predicate Square(board: seq<seq<Move>>)
  {
    forall r :: 0 <= r < |board| ==> |board[r]| == |board|
  }

  /** The board a new game (or a reset) starts from: every cell unplayed at its own coordinate. */
  function FreshBoard(n: nat): (b: seq<seq<Move>>)
    ensures |b| == n && Square(b)
    ensures forall r, c :: 0 <= r < n && 0 <= c < n ==> b[r][c] == Move(r, c, Unplayed)
  {
    seq(n, r => seq(n, c => Move(r, c, Unplayed)))
  }

  function LabelAt(board: seq<seq<Move>>, p: Coord): string
    requires Square(board) && InBounds(|board|, p)
  {
    board[p.0][p.1].mark
  }

  /** Every cell carries a non-empty label. */
  predicate AllPlayed(board: seq<seq<Move>>)
    requires Square(board)
  {
    forall r, c :: 0 <= r < |board| && 0 <= c < |board| ==> board[r][c].mark != Unplayed
  }

  /** Two boards of one size that agree cell by cell are the same board. */
  lemma BoardExtensionality(a: seq<seq<Move>>, b: seq<seq<Move>>)
    requires |a| == |b| && Square(a) && Square(b)
    requires forall r, c :: 0 <= r < |a| && 0 <= c < |a| ==> a[r][c] == b[r][c]
    ensures a == b
  {
    forall r | 0 <= r < |a| ensures a[r] == b[r] {
      assert forall c :: 0 <= c < |a| ==> a[r][c] == b[r][c];
    }
  }

  /** The board after `m` is written over the cell at its own coordinate. */
  function Place(board: seq<seq<Move>>, m: Move): (b: seq<seq<Move>>)
    requires Square(board) && InBounds(|board|, (m.row, m.col))
    ensures |b| == |board| && Square(b)
    ensures b[m.row][m.col] == m
    ensures forall r, c :: 0 <= r < |b| && 0 <= c < |b| && (r, c) != (m.row, m.col) ==> b[r][c] == board[r][c]
  {
    board[m.row := board[m.row][m.col := m]]
  }

  // ---------------------------------------------------------------------
  // Winning combinations, derived from the board geometry
  // ---------------------------------------------------------------------

  /** The coordinates of every cell, row by row. */
  function RowCoords(board: seq<seq<Move>>): seq<seq<Coord>>
  {
    seq(|board|, i requires 0 <= i < |board| =>
      seq(|board[i]|, j requires 0 <= j < |board[i]| => (board[i][j].row, board[i][j].col)))
  }

  predicate Rectangular(rows: seq<seq<Coord>>)
  {
    forall i :: 0 <= i < |rows| ==> |rows[i]| == |rows[0]|
  }

  /** Rows turned into columns, as zip over all rows does when the rows have equal length. */
  function Transpose(rows: seq<seq<Coord>>): seq<seq<Coord>>
    requires Rectangular(rows)
  {
    if |rows| == 0 then []
    else seq(|rows[0]|, j requires 0 <= j < |rows[0]| =>
           seq(|rows|, i requires 0 <= i < |rows| => rows[i][j]))
  }

  function Reverse<T>(s: seq<T>): seq<T>
  {
    seq(|s|, i requires 0 <= i < |s| => s[|s| - 1 - i])
  }

  /** The i-th element of the i-th line, for every line in order. */
  function Diagonal(lines: seq<seq<Coord>>): seq<Coord>
    requires forall i :: 0 <= i < |lines| ==> i < |lines[i]|
  {
    seq(|lines|, i requires 0 <= i < |lines| => lines[i][i])
  }

  /** All rows, then all columns, then the main diagonal, then the diagonal read off the reversed columns. */
  function CombosOf(board: seq<seq<Move>>): seq<seq<Coord>>
    requires Square(board)
  {
    var rows := RowCoords(board);
    var columns := Transpose(rows);
    assert |columns| == |board|;
    rows + columns + [Diagonal(rows), Diagonal(Reverse(columns))]
  }

  /**
   * The winning combinations of an n-by-n game, derived from the fresh board.
   * There are 2n+2 of them, each n cells long: row k is combination k, column k
   * is combination n+k, then the main diagonal (i, i), then the anti-diagonal
   * (i, n-1-i).
   */
  function WinningCombos(n: nat): (combos: seq<seq<Coord>>)
    ensures |combos| == 2 * n + 2
    ensures forall k :: 0 <= k < |combos| ==> |combos[k]| == n
    ensures forall k, i :: 0 <= k < n && 0 <= i < n ==> combos[k][i] == (k, i)
    ensures forall k, i :: n <= k < 2 * n && 0 <= i < n ==> combos[k][i] == (i, k - n)
    ensures var diagonal := combos[2 * n]; forall i :: 0 <= i < n ==> diagonal[i] == (i, i)
    ensures var anti := combos[2 * n + 1]; forall i :: 0 <= i < n ==> anti[i] == (i, n - 1 - i)
  {
    var board := FreshBoard(n);
    var rows := RowCoords(board);
    assert forall k, i :: 0 <= k < n && 0 <= i < n ==> rows[k][i] == (k, i);
    CombosOf(board)
  }

  predicate ComboInBounds(combo: seq<Coord>, n: nat)
  {
    forall i :: 0 <= i < |combo| ==> InBounds(n, combo[i])
  }

  predicate CombosInBounds(combos: seq<seq<Coord>>, n: nat)
  {
    forall k :: 0 <= k < |combos| ==> ComboInBounds(combos[k], n)
  }

  /** Every coordinate of every winning combination lies on the board, and no combination repeats a cell. */
  lemma WinningCombosWellFormed(n: nat)
    ensures CombosInBounds(WinningCombos(n), n)
    ensures forall k :: 0 <= k < 2 * n + 2 ==> NoRepeat(WinningCombos(n)[k])
  {
    var combos := WinningCombos(n);
    forall k | 0 <= k < |combos| ensures ComboInBounds(combos[k], n) && NoRepeat(combos[k]) {
      CombosLineWellFormed(n, k);
    }
  }

  predicate NoRepeat(combo: seq<Coord>)
  {
    forall i, j :: 0 <= i < j < |combo| ==> combo[i] != combo[j]
  }

  lemma CombosLineWellFormed(n: nat, k: nat)
    requires k < 2 * n + 2
    ensures ComboInBounds(WinningCombos(n)[k], n) && NoRepeat(WinningCombos(n)[k])
  {
    var combo := WinningCombos(n)[k];
    if k < n {
      assert forall i :: 0 <= i < n ==> combo[i] == (k, i);
    } else if k < 2 * n {
      assert forall i :: 0 <= i < n ==> combo[i] == (i, k - n);
    } else if k == 2 * n {
      assert forall i :: 0 <= i < n ==> combo[i] == (i, i);
    } else {
      assert forall i :: 0 <= i < n ==> combo[i] == (i, n - 1 - i);
    }
  }

  // ---------------------------------------------------------------------
  // Deciding a win
  // ---------------------------------------------------------------------

  /** The set of labels found on the cells of a combination. */
  function ComboLabels(board: seq<seq<Move>>, combo: seq<Coord>): set<string>
    requires Square(board) && ComboInBounds(combo, |board|)
  {
    set i | 0 <= i < |combo| :: LabelAt(board, combo[i])
  }

  /** A combination is won when its cells carry one single label and that label is not the unplayed one. */
  predicate IsWin(board: seq<seq<Move>>, combo: seq<Coord>)
    requires Square(board) && ComboInBounds(combo, |board|)
  {
    var labels := ComboLabels(board, combo);
    |labels| == 1 && Unplayed !in labels
  }

  /** The set test is the same as: the combination is non-empty and all its labels equal a played first label. */
  lemma {:induction false} IsWinIffUniform(board: seq<seq<Move>>, combo: seq<Coord>)
    requires Square(board) && ComboInBounds(combo, |board|)
    ensures IsWin(board, combo) <==>
      |combo| > 0 && LabelAt(board, combo[0]) != Unplayed &&
      forall i :: 0 <= i < |combo| ==> LabelAt(board, combo[i]) == LabelAt(board, combo[0])
  {
    var labels := ComboLabels(board, combo);
    if |combo| == 0 {
      assert labels == {};
    } else {
      var first := LabelAt(board, combo[0]);
      assert first in labels;
      if forall i :: 0 <= i < |combo| ==> LabelAt(board, combo[i]) == first {
        assert labels == {first};
      }
      if |labels| == 1 {
        forall i | 0 <= i < |combo| ensures LabelAt(board, combo[i]) == first {
          var other := LabelAt(board, combo[i]);
          assert other in labels;
          if other != first {
            assert {first, other} <= labels;
            assert |{first, other}| == 2;
            SubsetCard({first, other}, labels);
            assert false;
          }
        }
      }
    }
  }

  lemma SubsetCard<T>(a: set<T>, b: set<T>)
    requires a <= b
    ensures |a| <= |b|
  {
    assert b == a + (b - a);
  }

  /** A combination holding an unplayed cell is not won. */
  lemma UnplayedCellBlocksWin(board: seq<seq<Move>>, combo: seq<Coord>, i: nat)
    requires Square(board) && ComboInBounds(combo, |board|)
    requires i < |combo| && LabelAt(board, combo[i]) == Unplayed
    ensures !IsWin(board, combo)
  {
    IsWinIffUniform(board, combo);
  }

  /** A combination holding two different labels is not won. */
  lemma MixedLabelsBlockWin(board: seq<seq<Move>>, combo: seq<Coord>, i: nat, j: nat)
    requires Square(board) && ComboInBounds(combo, |board|)
    requires i < |combo| && j < |combo| && LabelAt(board, combo[i]) != LabelAt(board, combo[j])
    ensures !IsWin(board, combo)
  {
    IsWinIffUniform(board, combo);
  }

  /**
   * The index of the first won combination at or after `from`, scanning in
   * combination order, or None when no combination from there on is won.
   */
  function FirstWin(board: seq<seq<Move>>, combos: seq<seq<Coord>>, from: nat): (r: Option<nat>)
    requires Square(board) && CombosInBounds(combos, |board|)
    decreases |combos| - from
    ensures r.Some? ==> from <= r.value < |combos| && IsWin(board, combos[r.value])
    ensures r.Some? ==> forall j :: from <= j < r.value ==> !IsWin(board, combos[j])
    ensures r.None? ==> forall j :: from <= j < |combos| ==> !IsWin(board, combos[j])
  {
    if from >= |combos| then None
    else if IsWin(board, combos[from]) then Some(from)
    else FirstWin(board, combos, from + 1)
  }

  /** When combination i is won and none before it is, the scan stops at i. */
  lemma FirstWinAt(board: seq<seq<Move>>, combos: seq<seq<Coord>>, i: nat)
    requires Square(board) && CombosInBounds(combos, |board|)
    requires i < |combos| && IsWin(board, combos[i])
    requires forall j :: 0 <= j < i ==> !IsWin(board, combos[j])
    ensures FirstWin(board, combos, 0) == Some(i)
  {
  }

  /** When no combination is won, the scan finds none. */
  lemma NoWin(board: seq<seq<Move>>, combos: seq<seq<Coord>>)
    requires Square(board) && CombosInBounds(combos, |board|)
    requires forall j :: 0 <= j < |combos| ==> !IsWin(board, combos[j])
    ensures FirstWin(board, combos, 0) == None
  {
  }
}
