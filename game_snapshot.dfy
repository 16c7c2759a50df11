/**
 * Both players' state on one frame (tekken/game_snapshot.py) and its mirror
 * image, the same frame seen from the other player's side.
 */
module GameSnapshots {
  import opened BotSnapshots

  /** A `GameSnapshot`: `bot` is the player the tool coaches, `opp` the other. */
  datatype GameSnapshot = GameSnapshot(
    bot: BotSnapshot,
    opp: BotSnapshot,
    frameCount: int,
    timerFramesRemaining: int,
    facingBool: bool,
    opponentName: string,
    isPlayerPlayerOne: bool)

  /** `FromMirrored()`: the same frame with the two players exchanged and
    * every other field kept, including which side the local player is on. */
  function FromMirrored(g: GameSnapshot): (m: GameSnapshot)
    ensures m.bot == g.opp && m.opp == g.bot
    ensures m.frameCount == g.frameCount && m.timerFramesRemaining == g.timerFramesRemaining
    ensures m.facingBool == g.facingBool && m.opponentName == g.opponentName
    ensures m.isPlayerPlayerOne == g.isPlayerPlayerOne
  {
    GameSnapshot(g.opp, g.bot, g.frameCount, g.timerFramesRemaining,
                 g.facingBool, g.opponentName, g.isPlayerPlayerOne)
  }

  /** Mirroring twice gives the frame back. */
  lemma MirrorInvolution(g: GameSnapshot)
    ensures FromMirrored(FromMirrored(g)) == g
  {
  }

  /** Mirroring is one-to-one: different frames have different mirror images. */
  lemma MirrorInjective(g: GameSnapshot, h: GameSnapshot)
    requires FromMirrored(g) == FromMirrored(h)
    ensures g == h
  {
    MirrorInvolution(g);
    MirrorInvolution(h);
  }
}
