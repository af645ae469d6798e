/**
 * Two complete games on the default 3-by-3 board, played by the default
 * players "X" and "O": one won on the top row, one filled without a winner.
 */
module Scenarios {
  import opened Rules
  import opened Properties

  const X: string := "X"
  const O: string := "O"

  /** X:(0,0), O:(1,1), X:(0,1), O:(2,2), X:(0,2). */
  function TopRowGame(): seq<Move>
  {
    [Move(0, 0, X), Move(1, 1, O), Move(0, 1, X), Move(2, 2, O), Move(0, 2, X)]
  }

  /** Alternating X and O until the board reads X O X / X O O / O X X. */
  function DrawnGame(): seq<Move>
  {
    [Move(0, 0, X), Move(0, 1, O), Move(0, 2, X), Move(1, 1, O), Move(1, 0, X),
     Move(1, 2, O), Move(2, 1, X), Move(2, 0, O), Move(2, 2, X)]
  }

  predicate OnBoard(n: nat, ms: seq<Move>)
  {
    forall i :: 0 <= i < |ms| ==> InBounds(n, (ms[i].row, ms[i].col))
  }

  /**
   * Each move of `ms`, played in turn from `board`, is valid when it is played:
   * no combination is won yet and its cell is unplayed.
   */
  predicate ValidPlay(board: seq<seq<Move>>, ms: seq<Move>)
    requires Square(board) && OnBoard(|board|, ms)
    decreases |ms|
  {
    WinningCombosWellFormed(|board|);
    ms == [] ||
    (FirstWin(board, WinningCombos(|board|), 0).None? &&
     LabelAt(board, (ms[0].row, ms[0].col)) == Unplayed &&
     ValidPlay(Place(board, ms[0]), ms[1..]))
  }

  /** A 3-by-3 board from its nine labels, row by row; every cell sits at its own coordinate. */
  function Board3(l: seq<string>): (b: seq<seq<Move>>)
    requires |l| == 9
    ensures |b| == 3 && Square(b)
  {
    [[Move(0, 0, l[0]), Move(0, 1, l[1]), Move(0, 2, l[2])],
     [Move(1, 0, l[3]), Move(1, 1, l[4]), Move(1, 2, l[5])],
     [Move(2, 0, l[6]), Move(2, 1, l[7]), Move(2, 2, l[8])]]
  }

  const U := Unplayed

  /** Playing cell (r, c) of a 3-by-3 board replaces its label, the (3r+c)-th of the nine. */
  lemma PlaceOnBoard3(l: seq<string>, r: int, c: int, mark: string)
    requires |l| == 9 && 0 <= r < 3 && 0 <= c < 3
    ensures Place(Board3(l), Move(r, c, mark)) == Board3(l[3 * r + c := mark])
  {
    BoardExtensionality(Place(Board3(l), Move(r, c, mark)), Board3(l[3 * r + c := mark]));
  }

  /** The eight winning combinations of the 3-by-3 game, written out. */
  lemma Combos3()
    ensures CombosInBounds(WinningCombos(3), 3)
    ensures WinningCombos(3) ==
      [[(0, 0), (0, 1), (0, 2)], [(1, 0), (1, 1), (1, 2)], [(2, 0), (2, 1), (2, 2)],
       [(0, 0), (1, 0), (2, 0)], [(0, 1), (1, 1), (2, 1)], [(0, 2), (1, 2), (2, 2)],
       [(0, 0), (1, 1), (2, 2)], [(0, 2), (1, 1), (2, 0)]]
  {
    WinningCombosWellFormed(3);
    var combos := WinningCombos(3);
    assert combos[0] == [(0, 0), (0, 1), (0, 2)];
    assert combos[1] == [(1, 0), (1, 1), (1, 2)];
    assert combos[2] == [(2, 0), (2, 1), (2, 2)];
    assert combos[3] == [(0, 0), (1, 0), (2, 0)];
    assert combos[4] == [(0, 1), (1, 1), (2, 1)];
    assert combos[5] == [(0, 2), (1, 2), (2, 2)];
    assert combos[6] == [(0, 0), (1, 1), (2, 2)];
    assert combos[7] == [(0, 2), (1, 1), (2, 0)];
  }

  /** Board of the top-row game after four moves: X X . / . O . / . . O */
  const TopRowAfterFour := Board3([X, X, U, U, O, U, U, U, O])
  /** Board of the top-row game after five moves: X X X / . O . / . . O */
  const TopRowAfterFive := Board3([X, X, X, U, O, U, U, U, O])

  /** After X:(0,0), O:(1,1), X:(0,1), O:(2,2) no combination is won. */
  lemma TopRowAfterFourOpen()
    ensures CombosInBounds(WinningCombos(3), 3)
    ensures FirstWin(TopRowAfterFour, WinningCombos(3), 0) == None
  {
    Combos3();
    var b, combos := TopRowAfterFour, WinningCombos(3);
    UnplayedCellBlocksWin(b, combos[0], 2);
    UnplayedCellBlocksWin(b, combos[1], 0);
    UnplayedCellBlocksWin(b, combos[2], 0);
    UnplayedCellBlocksWin(b, combos[3], 1);
    UnplayedCellBlocksWin(b, combos[4], 2);
    UnplayedCellBlocksWin(b, combos[5], 0);
    MixedLabelsBlockWin(b, combos[6], 0, 1);
    UnplayedCellBlocksWin(b, combos[7], 0);
    NoWin(b, combos);
  }

  /** Once X also plays (0,2), the first won combination is combination 0, the top row. */
  lemma TopRowAfterFiveWon()
    ensures CombosInBounds(WinningCombos(3), 3)
    ensures FirstWin(TopRowAfterFive, WinningCombos(3), 0) == Some(0)
  {
    Combos3();
    var b, combos := TopRowAfterFive, WinningCombos(3);
    IsWinIffUniform(b, combos[0]);
    FirstWinAt(b, combos, 0);
  }

  /** The nine labels of the top-row game's board after its first k moves (entry k), row by row. */
  const TopRowLabels: seq<seq<string>> := [
    [U, U, U, U, U, U, U, U, U],
    [X, U, U, U, U, U, U, U, U],
    [X, U, U, U, O, U, U, U, U],
    [X, X, U, U, O, U, U, U, U],
    [X, X, U, U, O, U, U, U, O],
    [X, X, X, U, O, U, U, U, O]]

  /** The board of the top-row game after its first k moves. */
  function TopRowAfter(k: nat): (b: seq<seq<Move>>)
    requires k <= 5
    ensures |b| == 3 && Square(b)
  {
    Board3(TopRowLabels[k])
  }

  /** Move k of the top-row game lands on an unplayed cell and takes the board from TopRowAfter(k) to TopRowAfter(k+1). */
  lemma TopRowStep(k: nat)
    requires k < 5
    ensures InBounds(3, (TopRowGame()[k].row, TopRowGame()[k].col))
    ensures LabelAt(TopRowAfter(k), (TopRowGame()[k].row, TopRowGame()[k].col)) == Unplayed
    ensures Place(TopRowAfter(k), TopRowGame()[k]) == TopRowAfter(k + 1)
  {
    var m := TopRowGame()[k];
    PlaceOnBoard3(TopRowLabels[k], m.row, m.col, m.mark);
    assert TopRowLabels[k][3 * m.row + m.col := m.mark] == TopRowLabels[k + 1];
  }

  /** Each move of the top-row game takes the board one step further along TopRowAfter. */
  lemma TopRowSteps()
    ensures OnBoard(3, TopRowGame())
    ensures FreshBoard(3) == TopRowAfter(0) && TopRowAfter(4) == TopRowAfterFour && TopRowAfter(5) == TopRowAfterFive
    ensures forall k :: 0 <= k < 5 ==> Place(TopRowAfter(k), TopRowGame()[k]) == TopRowAfter(k + 1)
    ensures forall k :: 0 <= k < 5 ==> LabelAt(TopRowAfter(k), (TopRowGame()[k].row, TopRowGame()[k].col)) == Unplayed
  {
    BoardExtensionality(FreshBoard(3), TopRowAfter(0));
    forall k | 0 <= k < 5
      ensures InBounds(3, (TopRowGame()[k].row, TopRowGame()[k].col))
      ensures LabelAt(TopRowAfter(k), (TopRowGame()[k].row, TopRowGame()[k].col)) == Unplayed
      ensures Place(TopRowAfter(k), TopRowGame()[k]) == TopRowAfter(k + 1)
    {
      TopRowStep(k);
    }
  }

  /**
   * From the board after k < 5 moves, the remaining moves of the top-row game
   * are all valid, nothing is won yet, and they end on the board won on the top row.
   */
  lemma {:induction false} TopRowRest(k: nat)
    requires k <= 4
    ensures OnBoard(3, TopRowGame()[k..])
    ensures ValidPlay(TopRowAfter(k), TopRowGame()[k..])
    ensures PlayAll(TopRowAfter(k), TopRowGame()[k..]) == TopRowAfterFive
    ensures CombosInBounds(WinningCombos(3), 3) && FirstWin(TopRowAfter(k), WinningCombos(3), 0) == None
    decreases 4 - k
  {
    TopRowSteps();
    TopRowAfterFourOpen();
    var ms := TopRowGame();
    if k < 4 {
      TopRowRest(k + 1);
      assert ms[k..][1..] == ms[k + 1..];
      NoWinBeforePlay(TopRowAfter(k), WinningCombos(3), ms[k]);
    } else {
      assert ms[4..][1..] == [];
      assert PlayAll(TopRowAfterFive, []) == TopRowAfterFive;
      assert ValidPlay(TopRowAfterFive, []);
    }
  }

  /**
   * In the top-row game every move is valid when played, and after the fifth
   * move the first won combination is combination 0, the top row
   * (0,0), (0,1), (0,2).
   */
  lemma TopRowGameIsWonByTopRow()
    ensures OnBoard(3, TopRowGame()) && CombosInBounds(WinningCombos(3), 3)
    ensures ValidPlay(FreshBoard(3), TopRowGame())
    ensures FirstWin(PlayAll(FreshBoard(3), TopRowGame()), WinningCombos(3), 0) == Some(0)
    ensures WinningCombos(3)[0] == [(0, 0), (0, 1), (0, 2)]
  {
    Combos3();
    TopRowSteps();
    TopRowAfterFiveWon();
    TopRowRest(0);
    assert TopRowGame()[0..] == TopRowGame();
  }

  /** Board of the drawn game at the end: X O X / X O O / O X X */
  const DrawnFinal := Board3([X, O, X, X, O, O, O, X, X])

  /** Combination k of the final drawn board holds two different labels, at positions i and j. */
  lemma DrawnLineMixed(k: nat) returns (i: nat, j: nat)
    requires k < 8
    ensures CombosInBounds(WinningCombos(3), 3)
    ensures i < 3 && j < 3
    ensures LabelAt(DrawnFinal, WinningCombos(3)[k][i]) != LabelAt(DrawnFinal, WinningCombos(3)[k][j])
  {
    Combos3();
    i := 0;
    j := if k == 3 || k == 4 then 2 else 1;
  }

  /** The final drawn board is full and no combination is won. */
  lemma DrawnFinalOpen()
    ensures CombosInBounds(WinningCombos(3), 3)
    ensures FirstWin(DrawnFinal, WinningCombos(3), 0) == None
    ensures AllPlayed(DrawnFinal)
  {
    WinningCombosWellFormed(3);
    var combos := WinningCombos(3);
    forall k | 0 <= k < 8 ensures !IsWin(DrawnFinal, combos[k]) {
      var i, j := DrawnLineMixed(k);
      MixedLabelsBlockWin(DrawnFinal, combos[k], i, j);
    }
    NoWin(DrawnFinal, combos);
  }

  /** The nine labels of the drawn game's board after its first k moves (entry k), row by row. */
  const DrawnLabels: seq<seq<string>> := [
    [U, U, U, U, U, U, U, U, U],
    [X, U, U, U, U, U, U, U, U],
    [X, O, U, U, U, U, U, U, U],
    [X, O, X, U, U, U, U, U, U],
    [X, O, X, U, O, U, U, U, U],
    [X, O, X, X, O, U, U, U, U],
    [X, O, X, X, O, O, U, U, U],
    [X, O, X, X, O, O, U, X, U],
    [X, O, X, X, O, O, O, X, U],
    [X, O, X, X, O, O, O, X, X]]

  /** The board of the drawn game after its first k moves. */
  function DrawnAfter(k: nat): (b: seq<seq<Move>>)
    requires k <= 9
    ensures |b| == 3 && Square(b)
  {
    Board3(DrawnLabels[k])
  }

  /** Move k of the drawn game lands on an unplayed cell and takes the board from DrawnAfter(k) to DrawnAfter(k+1). */
  lemma DrawnStep(k: nat)
    requires k < 9
    ensures InBounds(3, (DrawnGame()[k].row, DrawnGame()[k].col))
    ensures LabelAt(DrawnAfter(k), (DrawnGame()[k].row, DrawnGame()[k].col)) == Unplayed
    ensures Place(DrawnAfter(k), DrawnGame()[k]) == DrawnAfter(k + 1)
  {
    var m := DrawnGame()[k];
    PlaceOnBoard3(DrawnLabels[k], m.row, m.col, m.mark);
    assert DrawnLabels[k][3 * m.row + m.col := m.mark] == DrawnLabels[k + 1];
  }

  /** Each move of the drawn game takes the board one step further along DrawnAfter. */
  lemma DrawnSteps()
    ensures OnBoard(3, DrawnGame())
    ensures FreshBoard(3) == DrawnAfter(0) && DrawnAfter(9) == DrawnFinal
    ensures forall k :: 0 <= k < 9 ==> Place(DrawnAfter(k), DrawnGame()[k]) == DrawnAfter(k + 1)
    ensures forall k :: 0 <= k < 9 ==> LabelAt(DrawnAfter(k), (DrawnGame()[k].row, DrawnGame()[k].col)) == Unplayed
  {
    BoardExtensionality(FreshBoard(3), DrawnAfter(0));
    forall k | 0 <= k < 9
      ensures InBounds(3, (DrawnGame()[k].row, DrawnGame()[k].col))
      ensures LabelAt(DrawnAfter(k), (DrawnGame()[k].row, DrawnGame()[k].col)) == Unplayed
      ensures Place(DrawnAfter(k), DrawnGame()[k]) == DrawnAfter(k + 1)
    {
      DrawnStep(k);
    }
  }

  /** From the board after k moves, the remaining moves of the drawn game are all valid and end on the final board. */
  lemma {:induction false} DrawnRest(k: nat)
    requires k <= 9
    ensures OnBoard(3, DrawnGame()[k..])
    ensures ValidPlay(DrawnAfter(k), DrawnGame()[k..])
    ensures PlayAll(DrawnAfter(k), DrawnGame()[k..]) == DrawnFinal
    ensures CombosInBounds(WinningCombos(3), 3) && FirstWin(DrawnAfter(k), WinningCombos(3), 0) == None
    decreases 9 - k
  {
    DrawnSteps();
    DrawnFinalOpen();
    var ms := DrawnGame();
    if k < 9 {
      DrawnRest(k + 1);
      assert ms[k..][1..] == ms[k + 1..];
      NoWinBeforePlay(DrawnAfter(k), WinningCombos(3), ms[k]);
    } else {
      assert ms[k..] == [];
    }
  }

  /**
   * In the drawn game every move is valid when played, and at the end every
   * cell is played and no combination is won: the game is tied.
   */
  lemma DrawnGameIsTied()
    ensures OnBoard(3, DrawnGame()) && CombosInBounds(WinningCombos(3), 3)
    ensures ValidPlay(FreshBoard(3), DrawnGame())
    ensures AllPlayed(PlayAll(FreshBoard(3), DrawnGame()))
    ensures FirstWin(PlayAll(FreshBoard(3), DrawnGame()), WinningCombos(3), 0) == None
  {
    DrawnSteps();
    DrawnFinalOpen();
    DrawnRest(0);
    assert DrawnGame()[0..] == DrawnGame();
  }
}
