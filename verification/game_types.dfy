/** The enums and records of the game, with the presentation-only fields
    (sprites, containers, texts, graphics) removed. */
module GameTypes {
  import opened Wrappers

  /** A player's mark on a cell; `Empty` is the unmarked cell
      (`PlayerType.NONE`, the empty string, in the source). */
  datatype PlayerType = Human | Ai | Empty

  datatype GameState = WaitingPlayer | AiThinking | GameOver | WaitingEndTurn

  datatype CardType = NormalX | NormalO

  /** Matches won by the player, won by the computer, and tied. */
  datatype GameScore = GameScore(player: int, ai: int, ties: int)

  /** A combat participant. Health may drop below zero. */
  datatype Character = Character(health: int, maxHealth: int, damage: int)

  /** A cell position on the 3x3 grid, row-major. */
  type Index = i: int | 0 <= i < 9

  /** A win pattern: three cell positions. */
  datatype Line = Line(a: Index, b: Index, c: Index) {
    function Cells(): set<Index> {
      {a, b, c}
    }
  }

  /** The grid always holds exactly nine cells. */
  type Board = b: seq<PlayerType> | |b| == 9
    witness [Empty, Empty, Empty, Empty, Empty, Empty, Empty, Empty, Empty]

  /** Every line completed on a board, and the mark of the last one found. */
  datatype GameResult = GameResult(winner: PlayerType, lines: seq<Line>)

  /** A minimax score and, at an inner node, the move that achieves it. */
  datatype MinimaxResult = MinimaxResult(score: int, index: Option<Index>)

  datatype Card = Card(id: string, cardType: CardType, playerType: PlayerType,
                       name: string, description: string)

  /** `cards` is the draw pile; its last element is drawn first. */
  datatype DeckState = DeckState(cards: seq<Card>, discardPile: seq<Card>)

  datatype HandState = HandState(cards: seq<Card>, maxHandSize: int)
}
