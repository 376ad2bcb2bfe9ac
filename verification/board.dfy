/** The board engine: a nine-cell grid with move validation, detection of
    every completed line, and positional clearing of completed lines. */
module BoardEngine {
  import opened GameTypes
  import opened GameConstants

  /** The grid and the lines cleared from it since the last reset. */
  datatype GameBoard = GameBoard(board: Board, completedLines: seq<Line>)

  const EmptyBoard: Board := [Empty, Empty, Empty, Empty, Empty, Empty, Empty, Empty, Empty]

  /** A fresh grid: all nine cells empty and no cleared lines on record. */
  function Reset(): (g: GameBoard)
    ensures forall i :: 0 <= i < 9 ==> g.board[i] == Empty
    ensures g.completedLines == []
  {
    GameBoard(EmptyBoard, [])
  }

  /** A move is valid on an in-range, empty cell. */
  predicate IsValidMove(b: Board, index: int) {
    0 <= index < 9 && b[index] == Empty
  }

  /** Places `player` at `index` when the move is valid and reports whether
      it did; an invalid move leaves the board as it was. */
  function MakeMove(g: GameBoard, index: int, player: PlayerType): (r: (GameBoard, bool))
    ensures r.1 == IsValidMove(g.board, index)
    ensures r.1 ==> r.0.board[index] == player && r.0.completedLines == g.completedLines
    ensures r.1 ==> forall k :: 0 <= k < 9 && k != index ==> r.0.board[k] == g.board[k]
    ensures !r.1 ==> r.0 == g
  {
    if IsValidMove(g.board, index) then
      (GameBoard(g.board[index := player], g.completedLines), true)
    else
      (g, false)
  }

  /** The empty cells at positions `i` and above, ascending. */
  function AvailableFrom(b: Board, i: nat): seq<Index>
    requires i <= 9
    decreases 9 - i
  {
    if i == 9 then []
    else if b[i] == Empty then [i] + AvailableFrom(b, i + 1)
    else AvailableFrom(b, i + 1)
  }

  /** The scan from `i` lists exactly the empty cells at `i` and above. */
  lemma {:induction false} AvailableFromSpec(b: Board, i: nat)
    requires i <= 9
    ensures |AvailableFrom(b, i)| <= 9 - i
    ensures forall k :: 0 <= k < |AvailableFrom(b, i)| ==>
              i <= AvailableFrom(b, i)[k] && b[AvailableFrom(b, i)[k]] == Empty
    ensures forall j :: i <= j < 9 && b[j] == Empty ==> j in AvailableFrom(b, i)
    decreases 9 - i
  {
    if i < 9 {
      AvailableFromSpec(b, i + 1);
    }
  }

  /** The scan lists each empty cell once, in ascending order. */
  lemma {:induction false} AvailableFromAscending(b: Board, i: nat)
    requires i <= 9
    ensures forall k, l :: 0 <= k < l < |AvailableFrom(b, i)| ==>
              AvailableFrom(b, i)[k] < AvailableFrom(b, i)[l]
    decreases 9 - i
  {
    if i < 9 {
      AvailableFromSpec(b, i + 1);
      AvailableFromAscending(b, i + 1);
    }
  }

  /** Exactly the valid moves, in strictly ascending order. */
  function AvailableMoves(b: Board): (r: seq<Index>)
    ensures forall j :: j in r <==> IsValidMove(b, j)
    ensures forall k, l :: 0 <= k < l < |r| ==> r[k] < r[l]
    ensures |r| <= 9
  {
    AvailableFromSpec(b, 0);
    AvailableFromAscending(b, 0);
    AvailableFrom(b, 0)
  }

  /** Filling an empty cell removes exactly that cell from the positions at
      or above `i` that are still available. */
  lemma {:induction false} AvailableFromPlace(b: Board, m: Index, p: PlayerType, i: nat)
    requires i <= 9 && b[m] == Empty && p != Empty
    ensures m < i ==> AvailableFrom(b[m := p], i) == AvailableFrom(b, i)
    ensures i <= m ==> |AvailableFrom(b[m := p], i)| == |AvailableFrom(b, i)| - 1
    decreases 9 - i
  {
    if i < 9 {
      AvailableFromPlace(b, m, p, i + 1);
    }
  }

  /** Each move removes one available move and leaves the others. */
  lemma MoveRemovesOneAvailable(g: GameBoard, index: int, player: PlayerType)
    requires IsValidMove(g.board, index) && player != Empty
    ensures |AvailableMoves(MakeMove(g, index, player).0.board)| == |AvailableMoves(g.board)| - 1
    ensures forall j :: j in AvailableMoves(MakeMove(g, index, player).0.board) <==>
                          j in AvailableMoves(g.board) && j != index
  {
    AvailableFromPlace(g.board, index, player, 0);
  }

  /** The grid is full when no cell is empty. */
  function IsFull(b: Board): (r: bool)
    ensures r <==> |AvailableMoves(b)| == 0
    ensures r <==> forall i :: 0 <= i < 9 ==> b[i] != Empty
  {
    var moves := AvailableMoves(b);
    assert !(Empty in b) ==> |moves| == 0;
    assert |moves| == 0 ==> forall i :: 0 <= i < 9 ==> b[i] != Empty;
    !(Empty in b)
  }

  /** A pattern is completed when its three cells hold the same mark. */
  predicate Complete(b: Board, p: Line) {
    b[p.a] != Empty && b[p.a] == b[p.b] && b[p.a] == b[p.c]
  }

  /** The completed patterns among `pats`, in their order. */
  function CompletedIn(b: Board, pats: seq<Line>): seq<Line>
    decreases |pats|
  {
    if |pats| == 0 then []
    else (if Complete(b, pats[0]) then [pats[0]] else []) + CompletedIn(b, pats[1..])
  }

  /** The filter keeps exactly the completed patterns. */
  lemma {:induction false} CompletedInMembers(b: Board, pats: seq<Line>)
    ensures forall p :: p in CompletedIn(b, pats) <==> p in pats && Complete(b, p)
    decreases |pats|
  {
    if |pats| > 0 {
      CompletedInMembers(b, pats[1..]);
      assert forall p :: p in pats <==> p == pats[0] || p in pats[1..];
    }
  }

  /** One iteration of checkWinner's loop: a completed pattern is appended
      to the lines and the winner becomes its mark. */
  function ScanStep(b: Board, p: Line, acc: GameResult): GameResult {
    if Complete(b, p) then GameResult(b[p.a], acc.lines + [p]) else acc
  }

  /** The loop of checkWinner over `pats`. */
  function ScanLines(b: Board, pats: seq<Line>, acc: GameResult): GameResult
    decreases |pats|
  {
    if |pats| == 0 then acc
    else ScanLines(b, pats[1..], ScanStep(b, pats[0], acc))
  }

  /** The loop appends exactly the filtered patterns, and the winner it
      leaves is the mark of the last of them. */
  lemma {:induction false} ScanLinesFilters(b: Board, pats: seq<Line>, acc: GameResult)
    ensures var r := ScanLines(b, pats, acc);
            var found := CompletedIn(b, pats);
      && r.lines == acc.lines + found
      && r.winner == (if |found| == 0 then acc.winner else b[found[|found| - 1].a])
    decreases |pats|
  {
    if |pats| > 0 {
      var p := pats[0];
      var rest := CompletedIn(b, pats[1..]);
      var acc' := ScanStep(b, p, acc);
      ScanLinesFilters(b, pats[1..], acc');
      if Complete(b, p) {
        assert CompletedIn(b, pats) == [p] + rest;
        assert acc'.lines + rest == acc.lines + ([p] + rest);
      } else {
        assert CompletedIn(b, pats) == rest;
      }
    }
  }

  /** Starting from an empty result, the loop finds exactly the completed
      patterns, and its winner is `Empty` exactly when it found none and
      otherwise the mark of the last one found. */
  lemma ScanLinesSound(b: Board, pats: seq<Line>)
    ensures var r := ScanLines(b, pats, GameResult(Empty, []));
      && (forall p :: p in r.lines <==> p in pats && Complete(b, p))
      && (r.winner == Empty <==> |r.lines| == 0)
      && (|r.lines| > 0 ==> r.winner == b[r.lines[|r.lines| - 1].a])
  {
    var r := ScanLines(b, pats, GameResult(Empty, []));
    ScanLinesFilters(b, pats, GameResult(Empty, []));
    CompletedInMembers(b, pats);
    assert |r.lines| > 0 ==> r.lines[|r.lines| - 1] in r.lines;
  }

  /** checkWinner(): every completed pattern, in table order, and the mark
      of the last one; the winner is `Empty` exactly when none is found. */
  function CheckWinner(b: Board): (r: GameResult)
    ensures forall p {:trigger p in r.lines} :: p in r.lines <==> p in WinPatterns && Complete(b, p)
    ensures r.winner == Empty <==> |r.lines| == 0
    ensures |r.lines| > 0 ==> r.winner == b[r.lines[|r.lines| - 1].a]
  {
    ScanLinesSound(b, WinPatterns);
    ScanLines(b, WinPatterns, GameResult(Empty, []))
  }

  /** The lines checkWinner reports are the completed patterns in table
      order. */
  lemma CheckWinnerInTableOrder(b: Board)
    ensures CheckWinner(b).lines == CompletedIn(b, WinPatterns)
  {
    ScanLinesFilters(b, WinPatterns, GameResult(Empty, []));
  }

  /** Every cell of every given line. */
  function LineCells(lines: seq<Line>): (r: set<Index>)
    ensures forall k :: k in r <==> exists j :: 0 <= j < |lines| && k in lines[j].Cells()
  {
    if |lines| == 0 then {}
    else
      var rest := LineCells(lines[1..]);
      assert forall j :: 1 <= j < |lines| ==> lines[j] == lines[1..][j - 1];
      lines[0].Cells() + rest
  }

  /** clearLines(lines): empties every cell of every given line, keeps all
      other cells, and records the lines, in order, as completed. */
  function ClearLines(g: GameBoard, lines: seq<Line>): (r: GameBoard)
    ensures forall j, k :: 0 <= j < |lines| && k in lines[j].Cells() ==> r.board[k] == Empty
    ensures forall k :: 0 <= k < 9 && k !in LineCells(lines) ==> r.board[k] == g.board[k]
    ensures r.completedLines == g.completedLines + lines
  {
    var cleared := LineCells(lines);
    var cells := seq(9, k requires 0 <= k < 9 => if k in cleared then Empty else g.board[k]);
    GameBoard(cells, g.completedLines + lines)
  }

  /** Clearing the same lines twice leaves the grid as clearing them once. */
  lemma ClearLinesIdempotent(g: GameBoard, lines: seq<Line>)
    ensures ClearLines(ClearLines(g, lines), lines).board == ClearLines(g, lines).board
  {
  }

  /** All three cells of a cleared line are empty afterwards. */
  lemma ClearedLineEmpty(g: GameBoard, lines: seq<Line>, p: Line)
    requires p in lines
    ensures var after := ClearLines(g, lines).board;
            after[p.a] == Empty && after[p.b] == Empty && after[p.c] == Empty
  {
    var j :| 0 <= j < |lines| && lines[j] == p;
    assert p.a in lines[j].Cells() && p.b in lines[j].Cells() && p.c in lines[j].Cells();
  }

  /** Clearing lines that include every completed pattern leaves no pattern
      completed: a cleared pattern has an empty cell, and clearing cannot
      complete one that was not. */
  lemma ClearingCoversCompleted(g: GameBoard, lines: seq<Line>)
    requires forall p :: p in WinPatterns && Complete(g.board, p) ==> p in lines
    ensures forall p :: p in WinPatterns ==> !Complete(ClearLines(g, lines).board, p)
  {
    var after := ClearLines(g, lines).board;
    forall p | p in WinPatterns
      ensures !Complete(after, p)
    {
      if p in lines {
        ClearedLineEmpty(g, lines, p);
      } else {
        assert after[p.a] == g.board[p.a] || after[p.a] == Empty;
        assert after[p.b] == g.board[p.b] || after[p.b] == Empty;
        assert after[p.c] == g.board[p.c] || after[p.c] == Empty;
      }
    }
  }

  /** A grid with no completed pattern makes checkWinner report no line. */
  lemma NoCompletedMeansNoLines(b: Board)
    requires forall p :: p in WinPatterns ==> !Complete(b, p)
    ensures CheckWinner(b).lines == []
  {
    var q := CheckWinner(b).lines;
    if q != [] {
      assert false;
    }
  }

  /** After the lines checkWinner reports are cleared, it reports none. */
  lemma ClearingCompletedLinesLeavesNone(g: GameBoard)
    ensures CheckWinner(ClearLines(g, CheckWinner(g.board).lines).board).lines == []
  {
    var lines := CheckWinner(g.board).lines;
    ClearingCoversCompleted(g, lines);
    NoCompletedMeansNoLines(ClearLines(g, lines).board);
  }

  /** The copy handed out by clone(): equal to the grid; as a value it
      cannot alias it. */
  function Clone(g: GameBoard): (r: Board)
    ensures |r| == 9 && forall k :: 0 <= k < 9 ==> r[k] == g.board[k]
  {
    g.board
  }
}
