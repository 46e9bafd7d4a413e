/** The legal-move generator (src/app/use_cases/move_validator.py:20-42): scan
    the grid, collect every owned piece's capture chains and, for pieces with no
    chain, their simple moves; captures are mandatory and only the chains with
    the most captures survive. */
module MoveValidator {

  import opened Optional
  import opened Pieces
  import opened Boards
  import opened Seqs
  import opened Moves
  import opened ChainSearch
  import opened ChainProps

  /** `p` holds a piece of `player`. */
  predicate Owns(b: Board, player: Player, p: Pos) {
    Get(b, p).Some? && Get(b, p).value.player == player
  }

  /** The capture chains of the piece on `p`, if it belongs to `player`. */
  function PieceChains(b: Board, player: Player, p: Pos): (r: seq<Move>)
    ensures |r| > 0 ==> Owns(b, player, p)
    ensures forall m :: m in r ==> m.from == p && |m.captures| > 0
  {
    match Get(b, p)
    case Some(piece) => if piece.player == player then Chains(b, piece, p, p, []) else []
    case None => []
  }

  /** The simple moves of the piece on `p`, if it belongs to `player` and has
      no capture chain of its own. */
  function PieceSimples(b: Board, player: Player, p: Pos): (r: seq<Move>)
    ensures |r| > 0 ==> Owns(b, player, p) && |PieceChains(b, player, p)| == 0
    ensures forall m :: m in r ==> m.from == p && m.captures == []
  {
    match Get(b, p)
    case Some(piece) =>
      if piece.player == player && |Chains(b, piece, p, p, [])| == 0 then SimpleMoves(b, piece, p)
      else []
    case None => []
  }

  /** The capture chains of `player`'s pieces on the squares from step `k` of
      the scan on (row by row, each row left to right), in scan order. */
  function ChainsFrom(b: Board, player: Player, k: nat): (r: seq<Move>)
    ensures forall m :: m in r <==>
      InBounds(m.from) && ScanIndex(m.from) >= k && m in PieceChains(b, player, m.from)
    decreases ROWS * COLS - k
  {
    if k >= ROWS * COLS then []
    else
      var p := ScanSquare(k);
      ScanSquareSpec(k);
      PieceChains(b, player, p) + ChainsFrom(b, player, k + 1)
  }

  /** The simple moves of `player`'s pieces from step `k` of the scan on. */
  function SimplesFrom(b: Board, player: Player, k: nat): (r: seq<Move>)
    ensures forall m :: m in r <==>
      InBounds(m.from) && ScanIndex(m.from) >= k && m in PieceSimples(b, player, m.from)
    decreases ROWS * COLS - k
  {
    if k >= ROWS * COLS then []
    else
      var p := ScanSquare(k);
      ScanSquareSpec(k);
      PieceSimples(b, player, p) + SimplesFrom(b, player, k + 1)
  }

  lemma ChainsFromOwned(b: Board, player: Player, k: nat)
    ensures forall m :: m in ChainsFrom(b, player, k) ==> Owns(b, player, m.from) && |m.captures| > 0
  {
    forall m | m in ChainsFrom(b, player, k)
      ensures Owns(b, player, m.from) && |m.captures| > 0
    {
      assert m in PieceChains(b, player, m.from);
    }
  }

  lemma SimplesFromOwned(b: Board, player: Player, k: nat)
    ensures forall m :: m in SimplesFrom(b, player, k) ==> Owns(b, player, m.from) && m.captures == []
  {
    forall m | m in SimplesFrom(b, player, k)
      ensures Owns(b, player, m.from) && m.captures == []
    {
      assert m in PieceSimples(b, player, m.from);
    }
  }

  /** Every capture chain of `player`'s pieces, collected over the whole grid. */
  function CaptureCandidates(b: Board, player: Player): (r: seq<Move>)
    ensures forall m :: m in r ==> Owns(b, player, m.from) && |m.captures| > 0
  {
    ChainsFromOwned(b, player, 0);
    ChainsFrom(b, player, 0)
  }

  /** Every simple move of `player`'s pieces that have no capture chain,
      collected over the whole grid. */
  function SimpleCandidates(b: Board, player: Player): (r: seq<Move>)
    ensures forall m :: m in r ==> Owns(b, player, m.from) && m.captures == []
  {
    SimplesFromOwned(b, player, 0);
    SimplesFrom(b, player, 0)
  }

  /** The largest capture count among `ms` (0 for none). */
  function MaxCaptures(ms: seq<Move>): (r: nat)
    ensures forall m :: m in ms ==> |m.captures| <= r
    ensures |ms| > 0 ==> exists m :: m in ms && |m.captures| == r
  {
    if |ms| == 0 then 0
    else
      var rest := MaxCaptures(ms[1..]);
      assert forall m :: m in ms ==> m == ms[0] || m in ms[1..];
      if |ms[0].captures| >= rest then |ms[0].captures| else rest
  }

  /** The moves of `ms` capturing exactly `n` pieces, in their original order. */
  function WithCaptureCount(ms: seq<Move>, n: nat): (r: seq<Move>)
    ensures forall m :: m in r <==> m in ms && |m.captures| == n
  {
    if |ms| == 0 then []
    else
      var rest := WithCaptureCount(ms[1..], n);
      assert forall m :: m in ms <==> m == ms[0] || m in ms[1..];
      if |ms[0].captures| == n then [ms[0]] + rest else rest
  }

  /** The legal moves of `player`. Every one starts on a square holding one of
      the player's pieces. */
  function LegalMoves(b: Board, player: Player): (r: seq<Move>)
    ensures forall m :: m in r ==> Owns(b, player, m.from)
  {
    var chains := CaptureCandidates(b, player);
    if |chains| > 0 then WithCaptureCount(chains, MaxCaptures(chains))
    else SimpleCandidates(b, player)
  }

  // ---------------------------------------------------------------------------
  // What the legal moves are

  /** `m` is a capture chain of one of `player`'s pieces. */
  ghost predicate OwnChain(b: Board, player: Player, m: Move) {
    InBounds(m.from) && m in PieceChains(b, player, m.from)
  }

  /** Some piece of `player` can capture. */
  ghost predicate CaptureAvailable(b: Board, player: Player) {
    exists p :: InBounds(p) && |PieceChains(b, player, p)| > 0
  }

  lemma CandidatesSpec(b: Board, player: Player, m: Move)
    ensures m in CaptureCandidates(b, player) <==> OwnChain(b, player, m)
    ensures m in SimpleCandidates(b, player) <==>
      InBounds(m.from) && m in PieceSimples(b, player, m.from)
  {
  }

  lemma CaptureAvailableSpec(b: Board, player: Player)
    ensures CaptureAvailable(b, player) <==> |CaptureCandidates(b, player)| > 0
  {
    if CaptureAvailable(b, player) {
      var p :| InBounds(p) && |PieceChains(b, player, p)| > 0;
      var m := PieceChains(b, player, p)[0];
      assert m in PieceChains(b, player, p);
      assert OwnChain(b, player, m);
      CandidatesSpec(b, player, m);
      assert m in CaptureCandidates(b, player);
    }
    if |CaptureCandidates(b, player)| > 0 {
      var m := CaptureCandidates(b, player)[0];
      CandidatesSpec(b, player, m);
      assert OwnChain(b, player, m);
      assert InBounds(m.from) && |PieceChains(b, player, m.from)| > 0;
    }
  }

  /** With captures available, the legal moves are the candidates with the
      largest capture count. */
  lemma LegalWhenCapturing(b: Board, player: Player, m: Move)
    requires |CaptureCandidates(b, player)| > 0
    ensures m in LegalMoves(b, player) <==>
      m in CaptureCandidates(b, player) &&
      |m.captures| == MaxCaptures(CaptureCandidates(b, player))
  {
  }

  /** The largest count is an upper bound for every chain of `player` and is
      reached by one of them. */
  lemma MaxIsGlobal(b: Board, player: Player)
    requires |CaptureCandidates(b, player)| > 0
    ensures forall c :: OwnChain(b, player, c) ==>
      |c.captures| <= MaxCaptures(CaptureCandidates(b, player))
    ensures exists best :: (best in CaptureCandidates(b, player) &&
      |best.captures| == MaxCaptures(CaptureCandidates(b, player)))
  {
    var chains := CaptureCandidates(b, player);
    var mx := MaxCaptures(chains);
    var best :| best in chains && |best.captures| == mx;
    forall c | OwnChain(b, player, c)
      ensures |c.captures| <= MaxCaptures(CaptureCandidates(b, player))
    {
      CandidatesSpec(b, player, c);
    }
  }

  /** Mandatory, maximal capture: when any piece of `player` can capture, the
      legal moves are exactly the capture chains of `player`'s pieces that no
      other chain of theirs beats in length (ties are all kept), there is at
      least one, and every one captures something. */
  lemma MandatoryCapture(b: Board, player: Player, m: Move)
    requires CaptureAvailable(b, player)
    ensures m in LegalMoves(b, player) <==>
      OwnChain(b, player, m) &&
      forall c :: OwnChain(b, player, c) ==> |c.captures| <= |m.captures|
    ensures m in LegalMoves(b, player) ==> |m.captures| > 0
    ensures |LegalMoves(b, player)| > 0
  {
    CaptureAvailableSpec(b, player);
    var chains := CaptureCandidates(b, player);
    var mx := MaxCaptures(chains);
    MaxIsGlobal(b, player);
    var best :| best in chains && |best.captures| == mx;
    CandidatesSpec(b, player, best);
    CandidatesSpec(b, player, m);
    LegalWhenCapturing(b, player, m);
    LegalWhenCapturing(b, player, best);
  }

  /** Without any capture available, the legal moves are exactly the simple
      moves of `player`'s pieces, none of which captures. */
  lemma NoCaptureSimpleMoves(b: Board, player: Player, m: Move)
    requires !CaptureAvailable(b, player)
    ensures m in LegalMoves(b, player) <==>
      Owns(b, player, m.from) && InBounds(m.from) &&
      m in SimpleMoves(b, Get(b, m.from).value, m.from)
    ensures m in LegalMoves(b, player) ==> m.captures == []
  {
    CaptureAvailableSpec(b, player);
    CandidatesSpec(b, player, m);
    if Owns(b, player, m.from) && InBounds(m.from) {
      assert |PieceChains(b, player, m.from)| == 0;
    }
  }

  /** Without any capture available, a piece's simple moves all stay candidates. */
  lemma SimplesWhenNoCapture(b: Board, player: Player, p: Pos)
    requires !CaptureAvailable(b, player)
    requires InBounds(p) && Owns(b, player, p)
    ensures PieceSimples(b, player, p) == SimpleMoves(b, Get(b, p).value, p)
  {
    assert |PieceChains(b, player, p)| == 0;
  }

  /** Without captures, a simple candidate is a simple move of its own piece. */
  lemma SimpleWitness(b: Board, player: Player) returns (p: Pos)
    requires !CaptureAvailable(b, player) && |SimpleCandidates(b, player)| > 0
    ensures InBounds(p) && Owns(b, player, p)
    ensures SimpleCandidates(b, player)[0].from == p
    ensures SimpleCandidates(b, player)[0] in SimpleMoves(b, Get(b, p).value, p)
  {
    var m := SimpleCandidates(b, player)[0];
    CandidatesSpec(b, player, m);
    p := m.from;
    assert m in PieceSimples(b, player, p);
    SimplesWhenNoCapture(b, player, p);
    assert m in SimpleMoves(b, Get(b, p).value, p);
  }

  /** Without captures, a piece's simple move makes a simple candidate. */
  lemma SimpleCandidate(b: Board, player: Player, p: Pos)
    requires !CaptureAvailable(b, player)
    requires InBounds(p) && Owns(b, player, p) && |SimpleMoves(b, Get(b, p).value, p)| > 0
    ensures |SimpleCandidates(b, player)| > 0
  {
    SimplesWhenNoCapture(b, player, p);
    var m := SimpleMoves(b, Get(b, p).value, p)[0];
    assert m in PieceSimples(b, player, p);
    CandidatesSpec(b, player, m);
  }

  /** A player has no legal move exactly when none of their pieces has a
      capture chain or a simple move; this is the losing condition. */
  lemma NoLegalMoves(b: Board, player: Player)
    ensures |LegalMoves(b, player)| == 0 <==>
      forall p :: InBounds(p) && Owns(b, player, p) ==>
        |PieceChains(b, player, p)| == 0 && |SimpleMoves(b, Get(b, p).value, p)| == 0
  {
    if CaptureAvailable(b, player) {
      MandatoryCapture(b, player, Move(Pos(0, 0), Pos(0, 0), []));
      var p :| InBounds(p) && |PieceChains(b, player, p)| > 0;
      assert Owns(b, player, p);
    } else {
      CaptureAvailableSpec(b, player);
      assert LegalMoves(b, player) == SimpleCandidates(b, player);
      if |SimpleCandidates(b, player)| > 0 {
        var p := SimpleWitness(b, player);
      } else {
        forall p | InBounds(p) && Owns(b, player, p)
          ensures |SimpleMoves(b, Get(b, p).value, p)| == 0
        {
          if |SimpleMoves(b, Get(b, p).value, p)| > 0 {
            SimpleCandidate(b, player, p);
          }
        }
      }
    }
  }

  /** Every capture candidate starts on one of `player`'s pieces, lands on an
      empty square and captures distinct opponents. */
  lemma ChainCandidateShape(b: Board, player: Player, m: Move)
    requires m in CaptureCandidates(b, player)
    ensures Owns(b, player, m.from) && InBounds(m.from)
    ensures Landing(b, m.to)
    ensures ValidCaptures(b, player, m.captures)
  {
    CandidatesSpec(b, player, m);
    RecordedChainShape(b, Get(b, m.from).value, m.from, m);
  }

  /** Every simple candidate starts on one of `player`'s pieces and lands on an
      empty square. */
  lemma SimpleCandidateShape(b: Board, player: Player, m: Move)
    requires m in SimpleCandidates(b, player)
    ensures Owns(b, player, m.from) && InBounds(m.from)
    ensures Landing(b, m.to) && m.captures == []
  {
    CandidatesSpec(b, player, m);
    assert m in SimpleMoves(b, Get(b, m.from).value, m.from);
  }

  /** Every legal move starts on one of `player`'s pieces, lands on an empty
      square of the grid, and captures distinct squares holding opponents. */
  lemma LegalMoveShape(b: Board, player: Player, m: Move)
    requires m in LegalMoves(b, player)
    ensures Owns(b, player, m.from) && InBounds(m.from)
    ensures Landing(b, m.to)
    ensures ValidCaptures(b, player, m.captures)
  {
    if |CaptureCandidates(b, player)| > 0 {
      LegalWhenCapturing(b, player, m);
      ChainCandidateShape(b, player, m);
    } else {
      SimpleCandidateShape(b, player, m);
    }
  }
}
