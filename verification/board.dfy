/** The 8x8 board (src/core/board.py): a grid of optional pieces, read and written
    through primitives that silently ignore coordinates off the grid. */
module Boards {

  import opened Optional
  import opened Pieces

  const ROWS: int := 8
  const COLS: int := 8

  datatype Pos = Pos(row: int, col: int)

  predicate InBounds(p: Pos) {
    0 <= p.row < ROWS && 0 <= p.col < COLS
  }

  /** Occupied squares only; every stored square lies on the grid. */
  type Board = m: map<Pos, Piece> | forall p :: p in m ==> InBounds(p)

  const EmptyBoard: Board := map[]

  /** The piece on a square; nothing for an empty or off-grid square. */
  function Get(b: Board, p: Pos): (r: Option<Piece>)
    ensures !InBounds(p) ==> r == None
    ensures r.Some? <==> p in b
    ensures r.Some? ==> r.value == b[p]
  {
    if InBounds(p) && p in b then Some(b[p]) else None
  }

  /** Puts a piece on a square, replacing whatever was there; off the grid nothing happens. */
  function Add(b: Board, piece: Piece, p: Pos): (r: Board)
    ensures !InBounds(p) ==> r == b
    ensures forall q :: Get(r, q) == if q == p && InBounds(p) then Some(piece) else Get(b, q)
  {
    if InBounds(p) then b[p := piece] else b
  }

  /** Empties a square; off the grid nothing happens. */
  function Remove(b: Board, p: Pos): (r: Board)
    ensures !InBounds(p) ==> r == b
    ensures forall q :: Get(r, q) == if q == p then None else Get(b, q)
  {
    if InBounds(p) then b - {p} else b
  }

  /** Relocates the piece on `from` to `to`. An empty `from` changes nothing; an
      off-grid `to` makes the piece disappear. */
  function MovePiece(b: Board, from: Pos, to: Pos): (r: Board)
    ensures Get(b, from).None? ==> r == b
    ensures Get(b, from).Some? ==>
      forall q :: Get(r, q) ==
        if q == to && InBounds(to) then Get(b, from)
        else if q == from then None
        else Get(b, q)
  {
    match Get(b, from)
    case None => b
    case Some(piece) => Add(Remove(b, from), piece, to)
  }

  /** The piece the standard opening puts on a square: Black men on the dark
      squares of rows 0-2, White men on the dark squares of rows 5-7. */
  function StartingPiece(p: Pos): (r: Option<Piece>)
    ensures r.Some? ==> InBounds(p) && (p.row + p.col) % 2 == 1 && !r.value.isKing
    ensures r.Some? ==> (r.value.player == Black <==> p.row < 3)
    ensures r.Some? ==> (r.value.player == White <==> p.row > 4)
    ensures InBounds(p) && (p.row + p.col) % 2 == 1 && (p.row < 3 || p.row > 4) ==> r.Some?
  {
    if InBounds(p) && (p.row + p.col) % 2 == 1 then
      if p.row < 3 then Some(NewPiece(Black))
      else if p.row > 4 then Some(NewPiece(White))
      else None
    else None
  }

  /** The square visited at step `k` of a row-major scan of the grid. */
  function ScanSquare(k: int): Pos {
    Pos(k / COLS, k % COLS)
  }

  /** Position of a square in the row-major scan. */
  function ScanIndex(p: Pos): int {
    p.row * COLS + p.col
  }

  lemma ScanRoundTrip(p: Pos)
    requires InBounds(p)
    ensures 0 <= ScanIndex(p) < ROWS * COLS
    ensures ScanSquare(ScanIndex(p)) == p
  {
  }

  /** Step `k` of the scan is the one square of the grid with index `k`. */
  lemma ScanSquareSpec(k: int)
    requires 0 <= k < ROWS * COLS
    ensures InBounds(ScanSquare(k)) && ScanIndex(ScanSquare(k)) == k
    ensures forall p :: InBounds(p) && ScanIndex(p) == k ==> p == ScanSquare(k)
  {
    forall p | InBounds(p) && ScanIndex(p) == k
      ensures p == ScanSquare(k)
    {
      ScanRoundTrip(p);
    }
  }

  /** The setup scan from step `k` on: every remaining dark square of the home
      rows receives its starting piece, and every other square keeps its content. */
  function SetupFrom(b: Board, k: int): (r: Board)
    requires 0 <= k <= ROWS * COLS
    ensures forall q ::
      Get(r, q) ==
        if StartingPiece(q).Some? && ScanIndex(q) >= k then StartingPiece(q) else Get(b, q)
    decreases ROWS * COLS - k
  {
    if k == ROWS * COLS then b
    else
      var p := ScanSquare(k);
      ScanSquareSpec(k);
      var b' := match StartingPiece(p)
                case Some(piece) => Add(b, piece, p)
                case None => b;
      SetupFrom(b', k + 1)
  }

  /** The standard opening laid over `b`: starting squares get their pieces, the
      rest of `b` is left as it was. */
  function SetupBoard(b: Board): (r: Board)
    ensures forall q :: Get(r, q) == if StartingPiece(q).Some? then StartingPiece(q) else Get(b, q)
  {
    SetupFrom(b, 0)
  }

  /** The standard opening position: exactly the starting pieces. */
  const StandardBoard: Board :=
    map p | p in BoardSquares() && StartingPiece(p).Some? :: StartingPiece(p).value

  /** All 64 squares of the grid. */
  function BoardSquares(): (r: set<Pos>)
    ensures forall p :: p in r <==> InBounds(p)
  {
    set row, col | 0 <= row < ROWS && 0 <= col < COLS :: Pos(row, col)
  }

  /** Setting up an empty board yields the standard opening. */
  lemma SetupEmptyIsStandard()
    ensures SetupBoard(EmptyBoard) == StandardBoard
  {
    var b := SetupBoard(EmptyBoard);
    forall p ensures p in b <==> p in StandardBoard {
      assert Get(b, p) == StartingPiece(p);
    }
    forall p | p in b ensures b[p] == StandardBoard[p] {
      assert Get(b, p) == StartingPiece(p);
    }
  }

  /** The squares holding a piece of `pl`. */
  function PiecesOf(b: Board, pl: Player): set<Pos> {
    set p | p in b && b[p].player == pl
  }

  function Count(b: Board, pl: Player): nat {
    |PiecesOf(b, pl)|
  }
}

module BoardLayout {

  import opened Optional
  import opened Seqs
  import opened Pieces
  import opened Boards

  const BlackHomeSquares: seq<Pos> := [
    Pos(0, 1), Pos(0, 3), Pos(0, 5), Pos(0, 7),
    Pos(1, 0), Pos(1, 2), Pos(1, 4), Pos(1, 6),
    Pos(2, 1), Pos(2, 3), Pos(2, 5), Pos(2, 7)]

  const WhiteHomeSquares: seq<Pos> := [
    Pos(5, 0), Pos(5, 2), Pos(5, 4), Pos(5, 6),
    Pos(6, 1), Pos(6, 3), Pos(6, 5), Pos(6, 7),
    Pos(7, 0), Pos(7, 2), Pos(7, 4), Pos(7, 6)]

  const BlackHome: set<Pos> := Elems(BlackHomeSquares)
  const WhiteHome: set<Pos> := Elems(WhiteHomeSquares)

  lemma DarkSquare(p: Pos)
    requires InBounds(p) && (p.row + p.col) % 2 == 1
    ensures p.row < 3 ==> p in BlackHome
    ensures p.row > 4 ==> p in WhiteHome
  {
  }

  lemma HomeSizes()
    ensures |BlackHome| == 12 && |WhiteHome| == 12
  {
    DistinctCard(BlackHomeSquares);
    DistinctCard(WhiteHomeSquares);
  }

  lemma StandardIsStarting()
    ensures forall q :: Get(StandardBoard, q) == StartingPiece(q)
  {
    forall q ensures Get(StandardBoard, q) == StartingPiece(q) {
      if StartingPiece(q).Some? {
        assert q in BoardSquares();
      }
    }
  }

  lemma StandardAt(p: Pos)
    ensures Get(StandardBoard, p) == StartingPiece(p)
  {
    StandardIsStarting();
  }

  lemma StartingSquare(p: Pos, pl: Player)
    requires StartingPiece(p) == Some(Piece(pl, false))
    ensures InBounds(p) && (p.row + p.col) % 2 == 1
    ensures pl == Black ==> p.row < 3
    ensures pl == White ==> p.row > 4
  {
  }

  lemma StandardPiece(p: Pos, pl: Player)
    requires p in PiecesOf(StandardBoard, pl)
    ensures StartingPiece(p) == Some(Piece(pl, false))
  {
    StandardAt(p);
  }

  lemma HomeSquare(p: Pos, pl: Player)
    requires p in PiecesOf(StandardBoard, pl)
    ensures InBounds(p) && (p.row + p.col) % 2 == 1
    ensures pl == Black ==> p.row < 3
    ensures pl == White ==> p.row > 4
  {
    StandardPiece(p, pl);
    StartingSquare(p, pl);
  }

  lemma HomeStarting(p: Pos)
    ensures p in BlackHome ==> StartingPiece(p) == Some(Piece(Black, false))
    ensures p in WhiteHome ==> StartingPiece(p) == Some(Piece(White, false))
  {
  }

  lemma StartingIsStandard(p: Pos, pl: Player)
    requires StartingPiece(p) == Some(Piece(pl, false))
    ensures p in PiecesOf(StandardBoard, pl)
  {
    StandardAt(p);
  }

  lemma BlackPieceOnHomeSquare(p: Pos)
    requires p in PiecesOf(StandardBoard, Black)
    ensures p in BlackHome
  {
    HomeSquare(p, Black);
    DarkSquare(p);
  }

  lemma BlackHomeSquareOccupied(p: Pos)
    requires p in BlackHome
    ensures p in PiecesOf(StandardBoard, Black)
  {
    HomeStarting(p);
    StartingIsStandard(p, Black);
  }

  lemma WhitePieceOnHomeSquare(p: Pos)
    requires p in PiecesOf(StandardBoard, White)
    ensures p in WhiteHome
  {
    HomeSquare(p, White);
    DarkSquare(p);
  }

  lemma WhiteHomeSquareOccupied(p: Pos)
    requires p in WhiteHome
    ensures p in PiecesOf(StandardBoard, White)
  {
    HomeStarting(p);
    StartingIsStandard(p, White);
  }

  lemma BlackPieces()
    ensures PiecesOf(StandardBoard, Black) == BlackHome
  {
    forall p | p in PiecesOf(StandardBoard, Black) ensures p in BlackHome {
      BlackPieceOnHomeSquare(p);
    }
    forall p | p in BlackHome ensures p in PiecesOf(StandardBoard, Black) {
      BlackHomeSquareOccupied(p);
    }
  }

  lemma WhitePieces()
    ensures PiecesOf(StandardBoard, White) == WhiteHome
  {
    forall p | p in PiecesOf(StandardBoard, White) ensures p in WhiteHome {
      WhitePieceOnHomeSquare(p);
    }
    forall p | p in WhiteHome ensures p in PiecesOf(StandardBoard, White) {
      WhiteHomeSquareOccupied(p);
    }
  }

  /** The standard opening square by square: only dark squares are used, Black
      men on rows 0-2, White men on rows 5-7, the two middle rows empty, no kings. */
  lemma StandardSquares(q: Pos)
    ensures Get(StandardBoard, q).Some? ==> InBounds(q) && (q.row + q.col) % 2 == 1
    ensures Get(StandardBoard, q).Some? ==> !Get(StandardBoard, q).value.isKing
    ensures Get(StandardBoard, q).Some? ==>
      (Get(StandardBoard, q).value.player == Black <==> q.row < 3) &&
      (Get(StandardBoard, q).value.player == White <==> q.row > 4)
    ensures 3 <= q.row <= 4 ==> Get(StandardBoard, q).None?
    ensures InBounds(q) && (q.row + q.col) % 2 == 1 && (q.row < 3 || q.row > 4) ==>
      Get(StandardBoard, q).Some?
  {
    StandardAt(q);
  }

  /** Each side starts with twelve men, on exactly its three home rows' dark squares. */
  lemma StandardCounts()
    ensures PiecesOf(StandardBoard, Black) == BlackHome
    ensures PiecesOf(StandardBoard, White) == WhiteHome
    ensures Count(StandardBoard, Black) == 12 && Count(StandardBoard, White) == 12
  {
    BlackPieces();
    WhitePieces();
    HomeSizes();
  }
}
