/** The records the components receive from the chess.com public API,
    restricted to the fields the modelled code reads, and the shape of a
    piece of display text. */
module Types {
  import opened Common

  datatype Player = Player(username: string, result: string)

  /** One finished game. `endTime` is the end of the game in seconds since
      the Unix epoch (the components read `game.end_time`). */
  datatype Game = Game(url: string, timeClass: string, pgn: string,
                       white: Player, black: Player, endTime: int)

  /** Win/loss/draw counters of one game mode; the two daily-only fields are optional. */
  datatype RatingRecord = RatingRecord(win: nat, loss: nat, draw: nat,
                                       timePerMove: Option<int>,
                                       timeoutPercent: Option<int>)

  datatype LastRating = LastRating(rating: int, date: int, rd: Option<int>)

  datatype BestRating = BestRating(rating: int, date: int, game: string)

  datatype ChessStats = ChessStats(last: LastRating, best: Option<BestRating>, record: RatingRecord)

  /** The per-mode statistics of a player; every mode may be missing. */
  datatype PlayerStats = PlayerStats(chessDaily: Option<ChessStats>,
                                     chessRapid: Option<ChessStats>,
                                     chessBullet: Option<ChessStats>,
                                     chessBlitz: Option<ChessStats>,
                                     fide: Option<int>)

  /** A string shown to the user. `Fixed(prefix, x, d)` stands for `prefix`
      followed by JavaScript's `x.toFixed(d)`, whose decimal rounding of
      binary floating point is not modelled. */
  datatype DisplayText =
    | Plain(text: string)
    | Fixed(prefix: string, amount: real, digits: nat)
}
