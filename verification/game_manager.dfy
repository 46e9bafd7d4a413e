/** The turn state machine (src/app/use_cases/game_manager.py): a game is a
    board, the side to move, the winner if there is one, and the side to move's
    legal moves. Playing a move returns whether it was accepted and the new state. */
module GameManager {

  import opened Optional
  import opened Seqs
  import opened Pieces
  import opened Boards
  import opened BoardLayout
  import opened Moves
  import opened ChainProps
  import opened MoveValidator

  datatype Game = Game(board: Board, current: Player, winner: Option<Player>, legalMoves: seq<Move>)

  // ---------------------------------------------------------------------------
  // Turn bookkeeping

  /** Recomputes the legal moves of the side to move. When it has none, the
      other side becomes the winner; otherwise the winner is left as it was. */
  function UpdateLegalMoves(g: Game): (r: Game)
    ensures r.board == g.board && r.current == g.current
    ensures r.legalMoves == LegalMoves(g.board, g.current)
    ensures |r.legalMoves| == 0 ==> r.winner == Some(Opponent(g.current))
    ensures |r.legalMoves| > 0 ==> r.winner == g.winner
  {
    var moves := LegalMoves(g.board, g.current);
    g.(legalMoves := moves, winner := if |moves| == 0 then Some(Opponent(g.current)) else g.winner)
  }

  /** Hands the turn to the other side and recomputes the legal moves. */
  function SwitchTurn(g: Game): (r: Game)
    ensures r.board == g.board && r.current == Opponent(g.current) && r.current != g.current
    ensures r.legalMoves == LegalMoves(g.board, r.current)
  {
    UpdateLegalMoves(g.(current := Opponent(g.current)))
  }

  /** Places the starting pieces on the board and computes the legal moves. */
  function SetupGame(g: Game): (r: Game)
    ensures r.current == g.current
    ensures forall q ::
      Get(r.board, q) == (if StartingPiece(q).Some? then StartingPiece(q) else Get(g.board, q))
    ensures r.legalMoves == LegalMoves(r.board, g.current)
  {
    UpdateLegalMoves(g.(board := SetupBoard(g.board)))
  }

  /** A fresh game: an empty board set up, White to move, no winner yet. */
  function NewGame(): (r: Game)
    ensures r.current == White && r.board == StandardBoard
    ensures r.legalMoves == LegalMoves(StandardBoard, White)
  {
    SetupEmptyIsStandard();
    SetupGame(Game(EmptyBoard, White, None, []))
  }

  // ---------------------------------------------------------------------------
  // Applying a move to the board

  /** The row on which a man of `pl` is crowned: the far edge from its side. */
  predicate PromotionRow(pl: Player, row: int)
    ensures PromotionRow(pl, row) <==> 0 <= row < ROWS && !(0 <= row + Forward(pl) < ROWS)
  {
    (pl == White && row == 0) || (pl == Black && row == ROWS - 1)
  }

  /** The piece `piece` becomes on arriving at `to`. */
  function Arrived(piece: Piece, to: Pos): (r: Piece)
    ensures r.player == piece.player
    ensures r.isKing <==> piece.isKing || PromotionRow(piece.player, to.row)
  {
    if !piece.isKing && PromotionRow(piece.player, to.row) then MakeKing(piece) else piece
  }

  /** Empties the captured squares, one after the other. */
  function RemoveAll(b: Board, caps: seq<Pos>): (r: Board)
    ensures forall q :: Get(r, q) == if q in caps then None else Get(b, q)
  {
    if |caps| == 0 then b
    else
      assert forall q :: q in caps <==> q == caps[0] || q in caps[1..];
      RemoveAll(Remove(b, caps[0]), caps[1..])
  }

  /** Crowns the piece standing on `p`, if any. */
  function PromoteAt(b: Board, p: Pos): (r: Board)
    ensures forall q ::
      Get(r, q) == (if q == p && Get(b, p).Some? then Some(MakeKing(Get(b, p).value)) else Get(b, q))
  {
    match Get(b, p)
    case None => b
    case Some(piece) => Add(b, MakeKing(piece), p)
  }

  /** The board after `m`: the piece on `m.from` is moved to `m.to`, the
      captured squares are emptied in order, and a man that was moved onto its
      promotion row is crowned where it now stands. */
  function ApplyMove(b: Board, m: Move): (r: Board)
    ensures forall c :: c in m.captures ==> Get(r, c).None?
    ensures forall q :: q != m.from && q != m.to && q !in m.captures ==> Get(r, q) == Get(b, q)
  {
    var piece := Get(b, m.from);
    var cleared := RemoveAll(MovePiece(b, m.from, m.to), m.captures);
    if piece.Some? && !piece.value.isKing && PromotionRow(piece.value.player, m.to.row) then
      PromoteAt(cleared, m.to)
    else cleared
  }

  /** What `ApplyMove` does to every square, for any move: captured squares end
      empty, the destination (on the grid and not captured) holds the arriving
      piece, the origin is emptied, and every other square keeps its contents.
      With `m.from` empty only the captures are removed. */
  lemma ApplyMoveSpec(b: Board, m: Move, q: Pos)
    ensures Get(b, m.from).None? ==>
      Get(ApplyMove(b, m), q) == if q in m.captures then None else Get(b, q)
    ensures Get(b, m.from).Some? ==>
      Get(ApplyMove(b, m), q) ==
        if q in m.captures then None
        else if q == m.to && InBounds(m.to) then Some(Arrived(Get(b, m.from).value, m.to))
        else if q == m.from then None
        else Get(b, q)
  {
  }

  /** A legal move of `player` relocates the mover (crowning it on its
      promotion row), empties its origin and every captured square, and leaves
      every other square as it was. */
  lemma ApplyLegalMove(b: Board, player: Player, m: Move, q: Pos)
    requires m in LegalMoves(b, player)
    ensures Get(b, m.from).Some? && Get(b, m.from).value.player == player
    ensures Get(ApplyMove(b, m), q) ==
      if q == m.to then Some(Arrived(Get(b, m.from).value, m.to))
      else if q == m.from || q in m.captures then None
      else Get(b, q)
  {
    LegalMoveShape(b, player, m);
    ApplyMoveSpec(b, m, q);
    NotCaptured(b, player, m);
  }

  /** Neither the origin nor the destination of a legal move is among its captures. */
  lemma NotCaptured(b: Board, player: Player, m: Move)
    requires Owns(b, player, m.from) && Landing(b, m.to)
    requires ValidCaptures(b, player, m.captures)
    ensures m.from !in m.captures && m.to !in m.captures
  {
  }

  // ---------------------------------------------------------------------------
  // Playing a move

  /** Plays `m`: a move that is not in the current legal list is refused and
      nothing changes; otherwise the board is updated and the turn passes. */
  function MakeMove(g: Game, m: Move): (r: (bool, Game))
    ensures r.0 <==> m in g.legalMoves
    ensures !r.0 ==> r.1 == g
    ensures r.0 ==>
      r.1.board == ApplyMove(g.board, m) && r.1.current == Opponent(g.current) &&
      r.1.legalMoves == LegalMoves(r.1.board, r.1.current)
  {
    if m !in g.legalMoves then (false, g)
    else (true, SwitchTurn(g.(board := ApplyMove(g.board, m))))
  }

  /** The state every reachable game is in: the legal list is the generator's
      output for the side to move, and there is a winner, the other side,
      exactly when that list is empty. */
  ghost predicate Consistent(g: Game) {
    && g.legalMoves == LegalMoves(g.board, g.current)
    && g.winner == if |g.legalMoves| == 0 then Some(Opponent(g.current)) else None
  }

  /** White can open the standard game, for instance with the man on (5, 0). */
  lemma WhiteCanOpen()
    ensures |LegalMoves(StandardBoard, White)| > 0
  {
    var p := Pos(5, 0);
    StandardAt(p);
    StandardAt(Pos(4, 1));
    var piece := Get(StandardBoard, p).value;
    assert piece == Piece(White, false);
    assert Move(p, Pos(4, 1), []) in SimpleMoves(StandardBoard, piece, p);
    NoLegalMoves(StandardBoard, White);
  }

  /** A new game has White to move on the standard board with the generator's
      moves for White, which are not empty, and no winner. */
  lemma NewGameState()
    ensures NewGame().current == White && NewGame().board == StandardBoard
    ensures NewGame().legalMoves == LegalMoves(StandardBoard, White)
    ensures |NewGame().legalMoves| > 0 && NewGame().winner == None
    ensures Consistent(NewGame())
  {
    WhiteCanOpen();
  }

  /** Playing any move keeps the game consistent; an accepted move hands the
      turn over, and the side that just moved wins exactly when the other side
      is left without legal moves. */
  lemma MakeMoveConsistent(g: Game, m: Move)
    requires Consistent(g)
    ensures Consistent(MakeMove(g, m).1)
    ensures MakeMove(g, m).0 ==>
      MakeMove(g, m).1.winner ==
        if |MakeMove(g, m).1.legalMoves| == 0 then Some(g.current) else None
  {
    if m in g.legalMoves {
      var g' := MakeMove(g, m).1;
      assert g.winner == None;
      assert Opponent(g'.current) == g.current;
    }
  }

  /** Once a consistent game has a winner, every move is refused and the game
      stays as it is. */
  lemma GameOverRejects(g: Game, m: Move)
    requires Consistent(g) && g.winner.Some?
    ensures MakeMove(g, m) == (false, g)
  {
  }

  /** In a consistent game there is a winner exactly when no piece of the side
      to move has a capture chain or a simple move. */
  lemma WinnerMeansStuck(g: Game)
    requires Consistent(g)
    ensures g.winner.Some? <==>
      forall p :: InBounds(p) && Owns(g.board, g.current, p) ==>
        |PieceChains(g.board, g.current, p)| == 0 &&
        |SimpleMoves(g.board, Get(g.board, p).value, p)| == 0
  {
    NoLegalMoves(g.board, g.current);
  }

  /** A side left without pieces has no legal move, so recomputing its moves
      makes the other side the winner. */
  lemma EliminatedLoses(g: Game)
    requires Count(g.board, g.current) == 0
    ensures UpdateLegalMoves(g).legalMoves == []
    ensures UpdateLegalMoves(g).winner == Some(Opponent(g.current))
  {
    assert forall p :: Owns(g.board, g.current, p) ==> p in PiecesOf(g.board, g.current);
    NoLegalMoves(g.board, g.current);
  }

  // ---------------------------------------------------------------------------
  // Piece counts

  /** `r` is `b` after a move `m` of `player` of the shape every legal move has. */
  ghost predicate Played(b: Board, r: Board, player: Player, m: Move) {
    && Owns(b, player, m.from) && Landing(b, m.to)
    && ValidCaptures(b, player, m.captures)
    && forall q :: Get(r, q) ==
         (if q == m.to then Some(Arrived(Get(b, m.from).value, m.to))
          else if q == m.from || q in m.captures then None
          else Get(b, q))
  }

  lemma LegalIsPlayed(b: Board, player: Player, m: Move)
    requires m in LegalMoves(b, player)
    ensures Played(b, ApplyMove(b, m), player, m)
  {
    LegalMoveShape(b, player, m);
    forall q
      ensures Get(ApplyMove(b, m), q) ==
        (if q == m.to then Some(Arrived(Get(b, m.from).value, m.to))
         else if q == m.from || q in m.captures then None
         else Get(b, q))
    {
      ApplyLegalMove(b, player, m, q);
    }
  }

  lemma MoverSquares(b: Board, r: Board, player: Player, m: Move)
    requires Played(b, r, player, m)
    ensures PiecesOf(r, player) == PiecesOf(b, player) - {m.from} + {m.to}
    ensures m.from in PiecesOf(b, player) && m.to !in PiecesOf(b, player)
  {
    NotCaptured(b, player, m);
    forall q
      ensures q in PiecesOf(r, player) <==> q in PiecesOf(b, player) - {m.from} + {m.to}
    {
      assert Get(r, q).Some? <==> q in r;
    }
  }

  lemma OpponentSquares(b: Board, r: Board, player: Player, m: Move)
    requires Played(b, r, player, m)
    ensures PiecesOf(r, Opponent(player)) == PiecesOf(b, Opponent(player)) - Elems(m.captures)
    ensures Elems(m.captures) <= PiecesOf(b, Opponent(player))
    ensures |Elems(m.captures)| == |m.captures|
  {
    var opp := Opponent(player);
    NotCaptured(b, player, m);
    forall q
      ensures q in PiecesOf(r, opp) <==> q in PiecesOf(b, opp) - Elems(m.captures)
    {
      assert Get(r, q).Some? <==> q in r;
    }
    DistinctCard(m.captures);
  }

  /** Moving a piece from one square to a square it did not hold keeps the count. */
  lemma SwapCard(s: set<Pos>, a: Pos, c: Pos)
    requires a in s && c !in s
    ensures |s - {a} + {c}| == |s|
  {
    assert s - {a} + {c} == (s - {a}) + {c};
    assert |s - {a}| == |s| - 1;
  }

  lemma MinusCard(s: set<Pos>, t: set<Pos>)
    requires t <= s
    ensures |s - t| == |s| - |t|
  {
    assert s * t == t;
  }

  /** A move played as described never changes the mover's piece count and
      lowers the opponent's by exactly the number of captured squares. */
  lemma PlayedCounts(b: Board, r: Board, player: Player, m: Move)
    requires Played(b, r, player, m)
    ensures Count(r, player) == Count(b, player)
    ensures Count(r, Opponent(player)) == Count(b, Opponent(player)) - |m.captures|
  {
    MoverSquares(b, r, player, m);
    SwapCard(PiecesOf(b, player), m.from, m.to);
    OpponentSquares(b, r, player, m);
    MinusCard(PiecesOf(b, Opponent(player)), Elems(m.captures));
  }

  /** A legal move never changes the mover's piece count and lowers the
      opponent's by exactly the number of captured squares. */
  lemma LegalMoveCounts(b: Board, player: Player, m: Move)
    requires m in LegalMoves(b, player)
    ensures Count(ApplyMove(b, m), player) == Count(b, player)
    ensures Count(ApplyMove(b, m), Opponent(player)) == Count(b, Opponent(player)) - |m.captures|
  {
    LegalIsPlayed(b, player, m);
    PlayedCounts(b, ApplyMove(b, m), player, m);
  }

  /** An accepted move in a consistent game changes the counts as a legal move
      does: the side that moved keeps all its pieces, the other side loses one
      per captured square. */
  lemma MakeMoveCounts(g: Game, m: Move)
    requires Consistent(g) && m in g.legalMoves
    ensures MakeMove(g, m).0
    ensures Count(MakeMove(g, m).1.board, g.current) == Count(g.board, g.current)
    ensures Count(MakeMove(g, m).1.board, Opponent(g.current)) ==
      Count(g.board, Opponent(g.current)) - |m.captures|
  {
    LegalMoveCounts(g.board, g.current, m);
  }
}
