/** Single-step move generation (src/app/use_cases/move_validator.py): the
    non-capturing moves of a piece and the single jumps a chain is built from. */
module Moves {

  import opened Optional
  import opened Pieces
  import opened Boards

  /** A complete move: origin, destination and the ordered captured squares.
      Two moves are the same move exactly when all three parts agree. */
  datatype Move = Move(from: Pos, to: Pos, captures: seq<Pos>)

  datatype Dir = Dir(dr: int, dc: int)

  /** The four diagonal directions, in the order the generator tries them. */
  const Diagonals: seq<Dir> := [Dir(-1, -1), Dir(-1, 1), Dir(1, -1), Dir(1, 1)]

  /** The square `k` steps from `p` along `d`. */
  function Step(p: Pos, d: Dir, k: int): Pos {
    Pos(p.row + d.dr * k, p.col + d.dc * k)
  }

  /** Row direction of a man's forward step: up the board for White, down for Black. */
  function Forward(pl: Player): int {
    if pl == White then -1 else 1
  }

  /** A square a piece may land on: on the grid and empty. */
  predicate Landing(b: Board, q: Pos) {
    InBounds(q) && Get(b, q).None?
  }

  /** A square holding an opponent of `pl` not yet captured in the current chain. */
  predicate Capturable(b: Board, pl: Player, caps: seq<Pos>, q: Pos) {
    Get(b, q).Some? && Get(b, q).value.player != pl && q !in caps
  }

  /** A square a king scanning for a target looks past: empty, or an opponent
      already captured in the current chain (captured pieces stay on the board
      until the move is applied). */
  predicate PassOver(b: Board, pl: Player, caps: seq<Pos>, q: Pos) {
    InBounds(q) && (Get(b, q).None? || (Get(b, q).value.player != pl && q in caps))
  }

  /** Steps `i` to `j` from `from` along `d` are all landing squares. */
  ghost predicate ClearRun(b: Board, from: Pos, d: Dir, i: int, j: int) {
    forall k :: i <= k <= j ==> Landing(b, Step(from, d, k))
  }

  // ---------------------------------------------------------------------------
  // Sliding along a ray (king moves and king landings)

  /** One move per consecutive empty square along `d`, from step `i` until the
      edge or the first occupied square; every move carries `caps`. */
  function Slide(b: Board, from: Pos, d: Dir, i: int, caps: seq<Pos>): (r: seq<Move>)
    ensures forall m :: m in r ==> m.from == from && m.captures == caps && Landing(b, m.to)
    decreases ROWS - i
  {
    if i >= ROWS || !Landing(b, Step(from, d, i)) then []
    else [Move(from, Step(from, d, i), caps)] + Slide(b, from, d, i + 1, caps)
  }

  /** Every move of a slide lands behind an unbroken run of empty squares. */
  lemma {:induction false} SlideSound(b: Board, from: Pos, d: Dir, i: int, caps: seq<Pos>, m: Move) returns (j: int)
    requires m in Slide(b, from, d, i, caps)
    ensures i <= j < ROWS && m.to == Step(from, d, j) && ClearRun(b, from, d, i, j)
    decreases ROWS - i
  {
    if m == Move(from, Step(from, d, i), caps) {
      j := i;
    } else {
      j := SlideSound(b, from, d, i + 1, caps, m);
    }
  }

  /** Every square behind an unbroken run of empty squares is reached by the slide. */
  lemma {:induction false} SlideComplete(b: Board, from: Pos, d: Dir, i: int, caps: seq<Pos>, j: int)
    requires i <= j < ROWS && ClearRun(b, from, d, i, j)
    ensures Move(from, Step(from, d, j), caps) in Slide(b, from, d, i, caps)
    decreases ROWS - i
  {
    assert Landing(b, Step(from, d, i));
    if j > i {
      SlideComplete(b, from, d, i + 1, caps, j);
    }
  }

  /** A slide reaches exactly the squares behind an unbroken run of empty squares. */
  lemma SlideSpec(b: Board, from: Pos, d: Dir, i: int, caps: seq<Pos>, m: Move)
    ensures m in Slide(b, from, d, i, caps) <==>
      m.from == from && m.captures == caps &&
      exists j :: i <= j < ROWS && m.to == Step(from, d, j) && ClearRun(b, from, d, i, j)
  {
    if m in Slide(b, from, d, i, caps) {
      var j := SlideSound(b, from, d, i, caps, m);
    }
    if m.from == from && m.captures == caps &&
       exists j :: i <= j < ROWS && m.to == Step(from, d, j) && ClearRun(b, from, d, i, j) {
      var j :| i <= j < ROWS && m.to == Step(from, d, j) && ClearRun(b, from, d, i, j);
      SlideComplete(b, from, d, i, caps, j);
    }
  }

  // ---------------------------------------------------------------------------
  // Simple (non-capturing) moves

  /** A man's one diagonal step along `d`, if it lands on an empty square. */
  function ManStep(b: Board, from: Pos, d: Dir): (r: seq<Move>)
    ensures |r| <= 1
    ensures forall m :: m in r <==>
      m == Move(from, Step(from, d, 1), []) && Landing(b, Step(from, d, 1))
  {
    if Landing(b, Step(from, d, 1)) then [Move(from, Step(from, d, 1), [])] else []
  }

  /** The non-capturing moves of `piece` standing on `from`: a man steps one
      square diagonally forward, a king slides any distance along a diagonal. */
  function SimpleMoves(b: Board, piece: Piece, from: Pos): (r: seq<Move>)
    ensures forall m :: m in r ==> m.from == from && m.captures == [] && Landing(b, m.to)
  {
    if piece.isKing then
      KingSlides(b, from, Diagonals)
    else
      var fwd := Forward(piece.player);
      ManStep(b, from, Dir(fwd, -1)) + ManStep(b, from, Dir(fwd, 1))
  }

  /** A man moves to one of the two forward diagonal neighbours that is empty and
      on the grid; a king moves to any square of a diagonal reached over empty
      squares only. Neither captures anything. */
  lemma SimpleMovesSpec(b: Board, piece: Piece, from: Pos, m: Move)
    ensures !piece.isKing ==>
      (m in SimpleMoves(b, piece, from) <==>
        m.from == from && m.captures == [] && Landing(b, m.to) &&
        (m.to == Pos(from.row + Forward(piece.player), from.col - 1) ||
         m.to == Pos(from.row + Forward(piece.player), from.col + 1)))
    ensures piece.isKing ==>
      (m in SimpleMoves(b, piece, from) <==>
        m.from == from && m.captures == [] &&
        exists d, j :: d in Diagonals && 1 <= j < ROWS && m.to == Step(from, d, j) &&
          ClearRun(b, from, d, 1, j))
  {
    if piece.isKing {
      KingSimpleSpec(b, piece, from, m);
    } else {
      ManSimpleSpec(b, piece, from, m);
    }
  }

  lemma ManSimpleSpec(b: Board, piece: Piece, from: Pos, m: Move)
    requires !piece.isKing
    ensures m in SimpleMoves(b, piece, from) <==>
      m.from == from && m.captures == [] && Landing(b, m.to) &&
      (m.to == Pos(from.row + Forward(piece.player), from.col - 1) ||
       m.to == Pos(from.row + Forward(piece.player), from.col + 1))
  {
    var fwd := Forward(piece.player);
    var left, right := Dir(fwd, -1), Dir(fwd, 1);
    assert Step(from, left, 1) == Pos(from.row + fwd, from.col - 1);
    assert Step(from, right, 1) == Pos(from.row + fwd, from.col + 1);
    assert SimpleMoves(b, piece, from) == ManStep(b, from, left) + ManStep(b, from, right);
  }

  /** The slides along each direction of `ds`, in order. */
  function KingSlides(b: Board, from: Pos, ds: seq<Dir>): (r: seq<Move>)
    ensures forall m :: m in r ==> m.from == from && m.captures == [] && Landing(b, m.to)
  {
    if ds == [] then []
    else Slide(b, from, ds[0], 1, []) + KingSlides(b, from, ds[1..])
  }

  /** A move of a direction's Slide is among the king slides. */
  lemma {:induction false} KingSlidesIn(b: Board, from: Pos, ds: seq<Dir>, d: Dir, m: Move)
    requires d in ds && m in Slide(b, from, d, 1, [])
    ensures m in KingSlides(b, from, ds)
  {
    if d != ds[0] {
      assert d in ds[1..];
      KingSlidesIn(b, from, ds[1..], d, m);
    }
  }

  /** Every move of the king slides comes from one direction's Slide. */
  lemma {:induction false} KingSlidesOut(b: Board, from: Pos, ds: seq<Dir>, m: Move) returns (d: Dir)
    requires m in KingSlides(b, from, ds)
    ensures d in ds && m in Slide(b, from, d, 1, [])
  {
    if m in Slide(b, from, ds[0], 1, []) {
      d := ds[0];
    } else {
      d := KingSlidesOut(b, from, ds[1..], m);
    }
  }

  lemma KingSimpleSpec(b: Board, piece: Piece, from: Pos, m: Move)
    requires piece.isKing
    ensures m in SimpleMoves(b, piece, from) <==>
      m.from == from && m.captures == [] &&
      exists d, j :: d in Diagonals && 1 <= j < ROWS && m.to == Step(from, d, j) &&
        ClearRun(b, from, d, 1, j)
  {
    if m in SimpleMoves(b, piece, from) {
      var d := KingSlidesOut(b, from, Diagonals, m);
      var j := SlideSound(b, from, d, 1, [], m);
    }
    if m.from == from && m.captures == [] &&
       exists d, j :: d in Diagonals && 1 <= j < ROWS && m.to == Step(from, d, j) &&
         ClearRun(b, from, d, 1, j) {
      var d, j :| d in Diagonals && 1 <= j < ROWS && m.to == Step(from, d, j) &&
         ClearRun(b, from, d, 1, j);
      SlideComplete(b, from, d, 1, [], j);
      KingSlidesIn(b, from, Diagonals, d, m);
    }
  }

  // ---------------------------------------------------------------------------
  // Single jumps

  /** A man's jump along `d`: over an uncaptured opponent on the neighbouring
      square to the empty square behind it. Both squares are judged on the board
      as it stood before the move began. */
  function ManJump(b: Board, piece: Piece, from: Pos, caps: seq<Pos>, d: Dir): (r: seq<Move>)
    ensures |r| <= 1
    ensures forall m :: m in r <==>
      m == Move(from, Step(from, d, 2), [Step(from, d, 1)]) &&
      Capturable(b, piece.player, caps, Step(from, d, 1)) && Landing(b, Step(from, d, 2))
  {
    var mid := Step(from, d, 1);
    var dest := Step(from, d, 2);
    if !InBounds(dest) then []
    else if Get(b, mid).Some? && Get(b, mid).value.player != piece.player &&
            Get(b, dest).None? && mid !in caps then
      [Move(from, dest, [mid])]
    else []
  }

  /** A king's scan along `d` from step `i`, before a target is found: empty
      squares and already captured opponents are passed over, an own piece ends
      the ray, and the first uncaptured opponent becomes the target, after which
      every empty square up to the next piece or the edge is a landing. */
  function KingScan(b: Board, piece: Piece, from: Pos, d: Dir, caps: seq<Pos>, i: int): (r: seq<Move>)
    ensures forall m :: m in r ==>
      m.from == from && |m.captures| == 1 &&
      Capturable(b, piece.player, caps, m.captures[0]) && Landing(b, m.to)
    decreases ROWS - i
  {
    if i >= ROWS then []
    else
      var q := Step(from, d, i);
      if !InBounds(q) then []
      else
        match Get(b, q)
        case None => KingScan(b, piece, from, d, caps, i + 1)
        case Some(sp) =>
          if sp.player == piece.player then []
          else if q !in caps then Slide(b, from, d, i + 1, [q])
          else KingScan(b, piece, from, d, caps, i + 1)
  }

  /** The scans along each direction of `ds`, in order. */
  function KingScans(b: Board, piece: Piece, from: Pos, caps: seq<Pos>, ds: seq<Dir>): (r: seq<Move>)
    ensures forall m :: m in r ==>
      m.from == from && |m.captures| == 1 &&
      Capturable(b, piece.player, caps, m.captures[0]) && Landing(b, m.to)
  {
    if ds == [] then []
    else KingScan(b, piece, from, ds[0], caps, 1) + KingScans(b, piece, from, caps, ds[1..])
  }

  /** A move of a direction's KingScan is among the king scans. */
  lemma {:induction false} KingScansIn(b: Board, piece: Piece, from: Pos, caps: seq<Pos>, ds: seq<Dir>, d: Dir, m: Move)
    requires d in ds && m in KingScan(b, piece, from, d, caps, 1)
    ensures m in KingScans(b, piece, from, caps, ds)
  {
    if d != ds[0] {
      assert d in ds[1..];
      KingScansIn(b, piece, from, caps, ds[1..], d, m);
    }
  }

  /** Every move of the king scans comes from one direction's KingScan. */
  lemma {:induction false} KingScansOut(b: Board, piece: Piece, from: Pos, caps: seq<Pos>, ds: seq<Dir>, m: Move) returns (d: Dir)
    requires m in KingScans(b, piece, from, caps, ds)
    ensures d in ds && m in KingScan(b, piece, from, d, caps, 1)
  {
    if m in KingScan(b, piece, from, ds[0], caps, 1) {
      d := ds[0];
    } else {
      d := KingScansOut(b, piece, from, caps, ds[1..], m);
    }
  }

  /** A man's jumps along each direction of `ds`, in order. */
  function ManJumps(b: Board, piece: Piece, from: Pos, caps: seq<Pos>, ds: seq<Dir>): (r: seq<Move>)
    ensures forall m :: m in r ==>
      m.from == from && |m.captures| == 1 &&
      Capturable(b, piece.player, caps, m.captures[0]) && Landing(b, m.to)
  {
    if ds == [] then []
    else ManJump(b, piece, from, caps, ds[0]) + ManJumps(b, piece, from, caps, ds[1..])
  }

  /** A move of a direction's ManJump is among the man jumps. */
  lemma {:induction false} ManJumpsIn(b: Board, piece: Piece, from: Pos, caps: seq<Pos>, ds: seq<Dir>, d: Dir, m: Move)
    requires d in ds && m in ManJump(b, piece, from, caps, d)
    ensures m in ManJumps(b, piece, from, caps, ds)
  {
    if d != ds[0] {
      assert d in ds[1..];
      ManJumpsIn(b, piece, from, caps, ds[1..], d, m);
    }
  }

  /** Every move of the man jumps comes from one direction's ManJump. */
  lemma {:induction false} ManJumpsOut(b: Board, piece: Piece, from: Pos, caps: seq<Pos>, ds: seq<Dir>, m: Move) returns (d: Dir)
    requires m in ManJumps(b, piece, from, caps, ds)
    ensures d in ds && m in ManJump(b, piece, from, caps, d)
  {
    if m in ManJump(b, piece, from, caps, ds[0]) {
      d := ds[0];
    } else {
      d := ManJumpsOut(b, piece, from, caps, ds[1..], m);
    }
  }

  /** Every single jump available to `piece` on `from` in the current chain, in
      generation order. Each captures one uncaptured opponent and lands on an
      empty square. */
  function SingleJumps(b: Board, piece: Piece, from: Pos, caps: seq<Pos>): (r: seq<Move>)
    ensures forall m :: m in r ==>
      m.from == from && |m.captures| == 1 &&
      Capturable(b, piece.player, caps, m.captures[0]) && Landing(b, m.to)
  {
    if piece.isKing then
      KingScans(b, piece, from, caps, Diagonals)
    else
      ManJumps(b, piece, from, caps, Diagonals)
  }

  /** Steps `i` up to but excluding `t` along `d` are all passed over. */
  ghost predicate Approach(b: Board, pl: Player, caps: seq<Pos>, from: Pos, d: Dir, i: int, t: int) {
    forall k :: i <= k < t ==> PassOver(b, pl, caps, Step(from, d, k))
  }

  /** `m` jumps, on ray `d` and starting the scan at step `i`, over the target at
      step `t` to the landing at step `j`. */
  ghost predicate KingJumpAt(b: Board, pl: Player, from: Pos, d: Dir, caps: seq<Pos>, i: int, m: Move, t: int, j: int) {
    && i <= t < j < ROWS
    && Approach(b, pl, caps, from, d, i, t)
    && Capturable(b, pl, caps, Step(from, d, t))
    && ClearRun(b, from, d, t + 1, j)
    && m == Move(from, Step(from, d, j), [Step(from, d, t)])
  }

  /** The king's scan yields exactly the jumps over the first uncaptured opponent
      on the ray (looking past empty squares and captured opponents) to any square
      of the unbroken empty run behind it. */
  lemma {:induction false} KingScanSpec(b: Board, piece: Piece, from: Pos, d: Dir, caps: seq<Pos>, i: int, m: Move)
    ensures m in KingScan(b, piece, from, d, caps, i) <==>
      exists t, j :: KingJumpAt(b, piece.player, from, d, caps, i, m, t, j)
    decreases ROWS - i
  {
    var pl := piece.player;
    if i >= ROWS {
    } else {
      var q := Step(from, d, i);
      if !InBounds(q) {
      } else if Get(b, q).Some? && Get(b, q).value.player == pl {
      } else if Get(b, q).Some? && q !in caps {
        assert KingScan(b, piece, from, d, caps, i) == Slide(b, from, d, i + 1, [q]);
        SlideSpec(b, from, d, i + 1, [q], m);
        if m in KingScan(b, piece, from, d, caps, i) {
          var j :| i + 1 <= j < ROWS && m.to == Step(from, d, j) && ClearRun(b, from, d, i + 1, j);
          assert KingJumpAt(b, pl, from, d, caps, i, m, i, j);
        }
        if exists t, j :: KingJumpAt(b, pl, from, d, caps, i, m, t, j) {
          var t, j :| KingJumpAt(b, pl, from, d, caps, i, m, t, j);
          assert t == i;
        }
      } else {
        // q is empty or an opponent already captured: looked past
        assert PassOver(b, pl, caps, q);
        assert KingScan(b, piece, from, d, caps, i) == KingScan(b, piece, from, d, caps, i + 1);
        KingScanSpec(b, piece, from, d, caps, i + 1, m);
        if m in KingScan(b, piece, from, d, caps, i) {
          var t, j :| KingJumpAt(b, pl, from, d, caps, i + 1, m, t, j);
          assert KingJumpAt(b, pl, from, d, caps, i, m, t, j);
        }
        if exists t, j :: KingJumpAt(b, pl, from, d, caps, i, m, t, j) {
          var t, j :| KingJumpAt(b, pl, from, d, caps, i, m, t, j);
          assert !Capturable(b, pl, caps, q);
          assert t != i;
          assert KingJumpAt(b, pl, from, d, caps, i + 1, m, t, j);
        }
      }
    }
  }

  /** A man's single jumps are exactly the two-square diagonal hops, in any of the
      four directions, over an uncaptured opponent onto an empty square on the grid. */
  lemma ManJumpsSpec(b: Board, piece: Piece, from: Pos, caps: seq<Pos>, m: Move)
    requires !piece.isKing
    ensures m in SingleJumps(b, piece, from, caps) <==>
      exists d :: d in Diagonals &&
        m == Move(from, Step(from, d, 2), [Step(from, d, 1)]) &&
        Capturable(b, piece.player, caps, Step(from, d, 1)) &&
        Landing(b, Step(from, d, 2))
  {
    if m in SingleJumps(b, piece, from, caps) {
      var d := ManJumpsOut(b, piece, from, caps, Diagonals, m);
    }
    if exists d :: d in Diagonals &&
        m == Move(from, Step(from, d, 2), [Step(from, d, 1)]) &&
        Capturable(b, piece.player, caps, Step(from, d, 1)) &&
        Landing(b, Step(from, d, 2)) {
      var d :| d in Diagonals &&
        m == Move(from, Step(from, d, 2), [Step(from, d, 1)]) &&
        Capturable(b, piece.player, caps, Step(from, d, 1)) &&
        Landing(b, Step(from, d, 2));
      assert m in ManJump(b, piece, from, caps, d);
      ManJumpsIn(b, piece, from, caps, Diagonals, d, m);
    }
  }

  /** A king's single jumps are exactly the jumps found by scanning each of the
      four diagonals from the square next to it. */
  lemma KingJumpsSpec(b: Board, piece: Piece, from: Pos, caps: seq<Pos>, m: Move)
    requires piece.isKing
    ensures m in SingleJumps(b, piece, from, caps) <==>
      exists d, t, j :: d in Diagonals && KingJumpAt(b, piece.player, from, d, caps, 1, m, t, j)
  {
    if m in SingleJumps(b, piece, from, caps) {
      var d := KingScansOut(b, piece, from, caps, Diagonals, m);
      KingScanSpec(b, piece, from, d, caps, 1, m);
      var t, j :| KingJumpAt(b, piece.player, from, d, caps, 1, m, t, j);
    }
    if exists d, t, j :: d in Diagonals && KingJumpAt(b, piece.player, from, d, caps, 1, m, t, j) {
      var d, t, j :| d in Diagonals && KingJumpAt(b, piece.player, from, d, caps, 1, m, t, j);
      KingScanSpec(b, piece, from, d, caps, 1, m);
      KingScansIn(b, piece, from, caps, Diagonals, d, m);
    }
  }
}
