/** The constants of the game module (memylon.js:67-79). */
module Constants {
  /** Milliseconds between two frames; every sequence advances by this much. */
  const FrameTime: nat := 50
  /** How long the cards stay face up during the opening flash, per column. */
  const FlashTime: nat := 1000
  /** Size of one card cell, on the board and in the card atlas image. */
  const CardWidth: nat := 64
  const CardHeight: nat := 60
  /** Glyphs per row of the card atlas image. */
  const CardsInRow: nat := 9
  /** Number of different card faces. */
  const CardVariations: nat := 53
  const FlipTime: nat := 500
  const HideTime: nat := 500
  const ShowTime: nat := 300
  /** The length of CARD_NAMES (one name per face); the names themselves are
      not modelled. */
  const NameCount: nat := 53
  /** numCardsW and numCardsH: the board is GridWidth cards wide. */
  const GridWidth: nat := 6
  const GridHeight: nat := 4
  const GridSize: nat := GridWidth * GridHeight
}
