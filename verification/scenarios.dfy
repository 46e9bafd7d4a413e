/** Small positions worked out completely against the move generator. */
module Scenarios {

  import opened Optional
  import opened Pieces
  import opened Boards
  import opened BoardLayout
  import opened Moves
  import opened ChainSearch
  import opened MoveValidator

  /** A White man on (4, 3) facing a lone Black man on (3, 2), with (2, 1) free. */
  const Facing: Board := map[Pos(4, 3) := Piece(White, false), Pos(3, 2) := Piece(Black, false)]

  const Man: Piece := Piece(White, false)

  const TheCapture: Move := Move(Pos(4, 3), Pos(2, 1), [Pos(3, 2)])

  /** A man with no jump in any direction of `ds` has none at all along them. */
  lemma {:induction false} ManJumpsNone(b: Board, piece: Piece, from: Pos, caps: seq<Pos>, ds: seq<Dir>)
    requires forall d :: d in ds ==> ManJump(b, piece, from, caps, d) == []
    ensures ManJumps(b, piece, from, caps, ds) == []
  {
    if ds != [] {
      assert ds[0] in ds;
      ManJumpsNone(b, piece, from, caps, ds[1..]);
    }
  }

  /** From (4, 3) the man can only jump up-left, over (3, 2). */
  lemma OpeningJumps()
    ensures SingleJumps(Facing, Man, Pos(4, 3), []) == [TheCapture]
  {
    var p := Pos(4, 3);
    var rest := Diagonals[1..];
    assert rest == [Dir(-1, 1), Dir(1, -1), Dir(1, 1)];
    assert ManJump(Facing, Man, p, [], Dir(-1, 1)) == [];
    assert ManJump(Facing, Man, p, [], Dir(1, -1)) == [];
    assert ManJump(Facing, Man, p, [], Dir(1, 1)) == [];
    ManJumpsNone(Facing, Man, p, [], rest);
    assert ManJump(Facing, Man, p, [], Dir(-1, -1)) == [TheCapture];
    assert SingleJumps(Facing, Man, p, []) == ManJump(Facing, Man, p, [], Dir(-1, -1)) + ManJumps(Facing, Man, p, [], rest);
  }

  /** After the capture the man on (2, 1) has nothing left to jump. */
  lemma LandingJumps()
    ensures SingleJumps(Facing, Man, Pos(2, 1), [Pos(3, 2)]) == []
  {
    var p := Pos(2, 1);
    assert ManJump(Facing, Man, p, [Pos(3, 2)], Dir(-1, -1)) == [];
    assert ManJump(Facing, Man, p, [Pos(3, 2)], Dir(-1, 1)) == [];
    assert ManJump(Facing, Man, p, [Pos(3, 2)], Dir(1, -1)) == [];
    assert ManJump(Facing, Man, p, [Pos(3, 2)], Dir(1, 1)) == [];
    ManJumpsNone(Facing, Man, p, [Pos(3, 2)], Diagonals);
  }

  /** The man's one jump, and nothing after it: the only opponent is taken. */
  lemma FacingChains()
    ensures Chains(Facing, Man, Pos(4, 3), Pos(4, 3), []) == [TheCapture]
  {
    var p := Pos(4, 3);
    OpeningJumps();
    LandingJumps();
    NodeStep(Facing, Man, p, Pos(2, 1), [Pos(3, 2)]);
    var js := [TheCapture];
    NodeStep(Facing, Man, p, p, []);
    ExpandLast(Facing, Man, p, [], js);
    assert [] + [Pos(3, 2)] == [Pos(3, 2)];
    assert js[..0] == [];
  }

  /** White owns exactly one square of the position. */
  lemma FacingOwner(q: Pos)
    ensures Owns(Facing, White, q) <==> q == Pos(4, 3)
  {
    if q in Facing && q != Pos(4, 3) {
      assert q == Pos(3, 2);
    }
  }

  lemma FacingPieceChains(q: Pos)
    ensures PieceChains(Facing, White, q) == if q == Pos(4, 3) then [TheCapture] else []
  {
    FacingOwner(q);
    if q == Pos(4, 3) {
      assert Get(Facing, q) == Some(Man);
      FacingChains();
    }
  }

  /** The capture is White's only candidate chain. */
  lemma FacingCandidates(m: Move)
    ensures m in CaptureCandidates(Facing, White) <==> m == TheCapture
  {
    CandidatesSpec(Facing, White, m);
    FacingPieceChains(m.from);
  }

  /** The longest candidate chain captures one piece. */
  lemma FacingMax()
    ensures |CaptureCandidates(Facing, White)| > 0
    ensures MaxCaptures(CaptureCandidates(Facing, White)) == 1
  {
    var chains := CaptureCandidates(Facing, White);
    FacingCandidates(TheCapture);
    var mx := MaxCaptures(chains);
    var best :| best in chains && |best.captures| == mx;
    FacingCandidates(best);
  }

  /** White's only legal move is the capture: the jump from (4, 3) over (3, 2) to (2, 1). */
  lemma FacingCapture(m: Move)
    ensures m in LegalMoves(Facing, White) <==> m == TheCapture
  {
    FacingCandidates(m);
    FacingMax();
    LegalWhenCapturing(Facing, White, m);
  }

  // ---------------------------------------------------------------------------
  // The opening position

  /** White's opening moves: each man of the front row (row 5) steps to an
      empty square of row 4. */
  const OpeningMoves: seq<Move> := [
    Move(Pos(5, 0), Pos(4, 1), []),
    Move(Pos(5, 2), Pos(4, 1), []), Move(Pos(5, 2), Pos(4, 3), []),
    Move(Pos(5, 4), Pos(4, 3), []), Move(Pos(5, 4), Pos(4, 5), []),
    Move(Pos(5, 6), Pos(4, 5), []), Move(Pos(5, 6), Pos(4, 7), [])]

  /** No White man of the opening can jump: no Black piece stands next to it. */
  lemma OpeningManJump(p: Pos, d: Dir)
    requires Owns(StandardBoard, White, p) && d in Diagonals
    ensures ManJump(StandardBoard, Man, p, [], d) == []
  {
    StandardAt(p);
    StandardAt(Step(p, d, 1));
  }

  /** No piece of White has a capture chain in the opening. */
  lemma OpeningNoChains(p: Pos)
    ensures PieceChains(StandardBoard, White, p) == []
  {
    StandardAt(p);
    if Owns(StandardBoard, White, p) {
      forall d | d in Diagonals
        ensures ManJump(StandardBoard, Man, p, [], d) == []
      {
        OpeningManJump(p, d);
      }
      ManJumpsNone(StandardBoard, Man, p, [], Diagonals);
      NodeStep(StandardBoard, Man, p, p, []);
    }
  }

  lemma OpeningNoCapture()
    ensures !CaptureAvailable(StandardBoard, White)
  {
    forall p
      ensures |PieceChains(StandardBoard, White, p)| == 0
    {
      OpeningNoChains(p);
    }
  }

  /** A forward step of a White man of the opening onto an empty square is one
      of the seven opening moves: only the front row has empty squares ahead. */
  lemma OpeningStep(from: Pos, to: Pos)
    requires StartingPiece(from) == Some(Man)
    requires to == Pos(from.row - 1, from.col - 1) || to == Pos(from.row - 1, from.col + 1)
    requires InBounds(to) && StartingPiece(to).None?
    ensures Move(from, to, []) in OpeningMoves
  {
    assert (to.row + to.col) % 2 == 1;
    assert from.row == 5;
    assert from.col in {0, 2, 4, 6};
  }

  lemma OpeningSimpleIn(m: Move)
    requires StartingPiece(m.from) == Some(Man)
    requires m in SimpleMoves(StandardBoard, Man, m.from)
    ensures m in OpeningMoves
  {
    ManSimpleSpec(StandardBoard, Man, m.from, m);
    StandardAt(m.to);
    OpeningStep(m.from, m.to);
  }

  /** A front-row man steps onto any on-grid square of row 4 diagonally ahead. */
  lemma OpeningStepOut(from: Pos, to: Pos)
    requires from.row == 5 && from.col in {0, 2, 4, 6}
    requires to.row == 4 && (to.col == from.col - 1 || to.col == from.col + 1) && 0 <= to.col < COLS
    ensures StartingPiece(from) == Some(Man)
    ensures Move(from, to, []) in SimpleMoves(StandardBoard, Man, from)
  {
    StandardAt(to);
    ManSimpleSpec(StandardBoard, Man, from, Move(from, to, []));
  }

  lemma OpeningSimpleOut(m: Move)
    requires m in OpeningMoves
    ensures StartingPiece(m.from) == Some(Man)
    ensures m in SimpleMoves(StandardBoard, Man, m.from)
  {
    OpeningStepOut(m.from, m.to);
  }

  lemma OpeningLegalIn(m: Move)
    requires m in LegalMoves(StandardBoard, White)
    ensures m in OpeningMoves
  {
    OpeningNoCapture();
    NoCaptureSimpleMoves(StandardBoard, White, m);
    StandardAt(m.from);
    OpeningSimpleIn(m);
  }

  lemma OpeningLegalOut(m: Move)
    requires m in OpeningMoves
    ensures m in LegalMoves(StandardBoard, White)
  {
    OpeningSimpleOut(m);
    OpeningNoCapture();
    StandardAt(m.from);
    NoCaptureSimpleMoves(StandardBoard, White, m);
  }

  /** In the opening, White's legal moves are exactly the seven forward steps of
      its four front-row men, none of them a capture. */
  lemma OpeningMovesSpec(m: Move)
    ensures m in LegalMoves(StandardBoard, White) <==> m in OpeningMoves
  {
    if m in LegalMoves(StandardBoard, White) {
      OpeningLegalIn(m);
    }
    if m in OpeningMoves {
      OpeningLegalOut(m);
    }
  }
}
