/** The fixed line table and the damage a completed line deals. */
module GameConstants {
  import opened GameTypes

  const DamagePerLine: int := 3

  /** Rows, then columns, then the two diagonals. */
  const WinPatterns: seq<Line> := [
    Line(0, 1, 2), Line(3, 4, 5), Line(6, 7, 8),
    Line(0, 3, 6), Line(1, 4, 7), Line(2, 5, 8),
    Line(0, 4, 8), Line(2, 4, 6)
  ]

  /** The table holds the three rows, the three columns and the two
      diagonals of the grid, in that order, and nothing else. */
  lemma WinPatternsShape()
    ensures |WinPatterns| == 8
    ensures forall r :: 0 <= r < 3 ==> WinPatterns[r] == Line(3 * r, 3 * r + 1, 3 * r + 2)
    ensures forall k :: 3 <= k < 6 ==> WinPatterns[k] == Line(k - 3, k, k + 3)
    ensures WinPatterns[6] == Line(0, 4, 8) && WinPatterns[7] == Line(2, 4, 6)
  {
  }

  /** No pattern repeats and every pattern names three different cells. */
  lemma WinPatternsDistinct()
    ensures forall i, j :: 0 <= i < j < |WinPatterns| ==> WinPatterns[i] != WinPatterns[j]
    ensures forall i :: 0 <= i < |WinPatterns| ==> |WinPatterns[i].Cells()| == 3
  {
  }
}
