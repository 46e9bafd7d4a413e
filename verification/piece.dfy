/** Players and pieces (src/core/piece.py). A piece is a value: its owner and its king flag. */
module Pieces {

  import opened Optional

  datatype Player = White | Black

  /** The other side. */
  function Opponent(p: Player): (r: Player)
    ensures r != p
  {
    if p == White then Black else White
  }

  datatype Piece = Piece(player: Player, isKing: bool)

  /** A freshly created piece: owned by `player`, not yet crowned. */
  function NewPiece(player: Player): (r: Piece)
    ensures r.player == player && !r.isKing
  {
    Piece(player, false)
  }

  /** Crowning sets the king flag and keeps the owner. */
  function MakeKing(p: Piece): (r: Piece)
    ensures r.isKing
    ensures r.player == p.player
  {
    p.(isKing := true)
  }

  /** Crowning twice is crowning once, and a king is left as it is. */
  lemma MakeKingIdempotent(p: Piece)
    ensures MakeKing(MakeKing(p)) == MakeKing(p)
    ensures p.isKing ==> MakeKing(p) == p
  {
  }

  /** The one- or two-letter text form: owner letter, then "K" for a king. */
  function Repr(p: Piece): (s: string)
    ensures |s| == (if p.isKing then 2 else 1)
    ensures s[0] == (if p.player == White then 'W' else 'B')
    ensures p.isKing ==> s[1] == 'K'
  {
    if p.player == White then
      (if p.isKing then "WK" else "W")
    else
      (if p.isKing then "BK" else "B")
  }

  /** Reads a text form back; anything other than the four forms is rejected. */
  function Parse(s: string): (r: Option<Piece>)
    ensures r.Some? <==> s in {"W", "WK", "B", "BK"}
  {
    if s == "W" then Some(Piece(White, false))
    else if s == "WK" then Some(Piece(White, true))
    else if s == "B" then Some(Piece(Black, false))
    else if s == "BK" then Some(Piece(Black, true))
    else None
  }

  /** The text form loses nothing: it reads back to the same piece. */
  lemma ReprRoundTrip(p: Piece)
    ensures Parse(Repr(p)) == Some(p)
  {
  }

  /** Every accepted text is the text form of the piece it reads as. */
  lemma ParseRoundTrip(s: string)
    ensures Parse(s).Some? ==> Repr(Parse(s).value) == s
  {
  }

}
