/** What a recorded capture chain is (src/app/use_cases/move_validator.py:78-105):
    a maximal sequence of single jumps from the piece's square, and the shape
    every such chain has. */
module ChainProps {

  import opened Optional
  import opened Pieces
  import opened Boards
  import opened Seqs
  import opened Moves
  import opened ChainSearch

  /** Captured squares are distinct and each holds an opponent of `pl`. */
  ghost predicate ValidCaptures(b: Board, pl: Player, caps: seq<Pos>) {
    && Distinct(caps)
    && forall c :: c in caps ==> Get(b, c).Some? && Get(b, c).value.player != pl
  }

  /** The shape of a recorded chain for `piece` starting on `start`. */
  ghost predicate ChainShaped(b: Board, piece: Piece, start: Pos, m: Move) {
    && m.from == start
    && |m.captures| > 0
    && ValidCaptures(b, piece.player, m.captures)
    && Landing(b, m.to)
    && |SingleJumps(b, piece, m.to, m.captures)| == 0
  }

  lemma FreshExtends(b: Board, pl: Player, caps: seq<Pos>, c: Pos)
    requires ValidCaptures(b, pl, caps)
    requires Capturable(b, pl, caps, c)
    ensures ValidCaptures(b, pl, caps + [c])
  {
  }

  /** Every chain recorded from a valid partial chain captures distinct opponent
      squares, ends on an empty square of the grid from which no jump continues,
      and starts where the piece stands. */
  lemma {:induction false} ChainsShape(b: Board, piece: Piece, start: Pos, cur: Pos, caps: seq<Pos>)
    requires ValidCaptures(b, piece.player, caps)
    requires |caps| > 0 ==> Landing(b, cur)
    ensures forall m :: m in Chains(b, piece, start, cur, caps) ==> ChainShaped(b, piece, start, m)
    decreases Remaining(b, piece.player, caps), 1, 0
  {
    NodeStep(b, piece, start, cur, caps);
    var js := SingleJumps(b, piece, cur, caps);
    if |js| > 0 {
      ExpandShape(b, piece, start, cur, caps, js);
    }
  }

  lemma {:induction false} ExpandShape(b: Board, piece: Piece, start: Pos, cur: Pos, caps: seq<Pos>, js: seq<Move>)
    requires ValidCaptures(b, piece.player, caps)
    requires forall j :: j in js ==> j in SingleJumps(b, piece, cur, caps)
    ensures FreshJumps(b, piece.player, caps, js)
    ensures forall m :: m in Expand(b, piece, start, caps, js) ==> ChainShaped(b, piece, start, m)
    decreases Remaining(b, piece.player, caps), 0, |js|
  {
    if |js| > 0 {
      var last := js[|js| - 1];
      assert last in js;
      assert last in SingleJumps(b, piece, cur, caps);
      var c := last.captures[0];
      RemainingShrinks(b, piece.player, caps, c);
      FreshExtends(b, piece.player, caps, c);
      ChainsShape(b, piece, start, last.to, caps + [c]);
      ExpandShape(b, piece, start, cur, caps, js[..|js| - 1]);
      ExpandLast(b, piece, start, caps, js);
    }
  }

  /** The chains of a piece on `p`, searched from scratch. */
  lemma RecordedChainShape(b: Board, piece: Piece, p: Pos, m: Move)
    requires m in Chains(b, piece, p, p, [])
    ensures ChainShaped(b, piece, p, m)
  {
    ChainsShape(b, piece, p, p, []);
  }

  // ---------------------------------------------------------------------------
  // Chains as maximal jump paths

  /** `path` is a sequence of single jumps, each legal from where the previous
      one landed with the captures made so far. */
  ghost predicate JumpPath(b: Board, piece: Piece, cur: Pos, caps: seq<Pos>, path: seq<Move>)
    decreases |path|
  {
    |path| == 0 ||
    (path[0] in SingleJumps(b, piece, cur, caps) &&
     JumpPath(b, piece, path[0].to, caps + path[0].captures, path[1..]))
  }

  function PathEnd(cur: Pos, path: seq<Move>): Pos
    decreases |path|
  {
    if |path| == 0 then cur else PathEnd(path[0].to, path[1..])
  }

  function PathCaptures(path: seq<Move>): seq<Pos>
    decreases |path|
  {
    if |path| == 0 then [] else path[0].captures + PathCaptures(path[1..])
  }

  /** `m` is the move made by following `path` from `cur` to its end, where it
      has captured something and cannot jump again. */
  ghost predicate ChainVia(b: Board, piece: Piece, start: Pos, cur: Pos, caps: seq<Pos>, m: Move, path: seq<Move>) {
    && JumpPath(b, piece, cur, caps, path)
    && |caps + PathCaptures(path)| > 0
    && |SingleJumps(b, piece, PathEnd(cur, path), caps + PathCaptures(path))| == 0
    && m == Move(start, PathEnd(cur, path), caps + PathCaptures(path))
  }

  lemma ConsPath(b: Board, piece: Piece, start: Pos, cur: Pos, caps: seq<Pos>, m: Move, jp: Move, rest: seq<Move>)
    ensures ChainVia(b, piece, start, cur, caps, m, [jp] + rest) <==>
      jp in SingleJumps(b, piece, cur, caps) &&
      ChainVia(b, piece, start, jp.to, caps + jp.captures, m, rest)
  {
    var path := [jp] + rest;
    assert path[0] == jp && path[1..] == rest;
    assert caps + PathCaptures(path) == (caps + jp.captures) + PathCaptures(rest);
  }

  lemma EmptyPath(b: Board, piece: Piece, start: Pos, cur: Pos, caps: seq<Pos>, m: Move)
    ensures ChainVia(b, piece, start, cur, caps, m, []) <==>
      |caps| > 0 && |SingleJumps(b, piece, cur, caps)| == 0 && m == Move(start, cur, caps)
  {
    assert caps + PathCaptures([]) == caps;
  }

  /** Where a jump exists the path cannot stop. */
  lemma PathContinues(b: Board, piece: Piece, start: Pos, cur: Pos, caps: seq<Pos>, m: Move, path: seq<Move>)
    requires ChainVia(b, piece, start, cur, caps, m, path)
    requires |SingleJumps(b, piece, cur, caps)| > 0
    ensures |path| > 0
  {
    if |path| == 0 {
      EmptyPath(b, piece, start, cur, caps, m);
    }
  }

  /** A leaf of the search: it records its own move and nothing else. */
  lemma LeafSpec(b: Board, piece: Piece, start: Pos, cur: Pos, caps: seq<Pos>, m: Move)
    requires |SingleJumps(b, piece, cur, caps)| == 0
    ensures m in Chains(b, piece, start, cur, caps) <==>
      exists path :: ChainVia(b, piece, start, cur, caps, m, path)
  {
    NodeStep(b, piece, start, cur, caps);
    EmptyPath(b, piece, start, cur, caps, m);
    if exists path :: ChainVia(b, piece, start, cur, caps, m, path) {
      var path :| ChainVia(b, piece, start, cur, caps, m, path);
      assert path == [];
    }
  }

  /** The search records exactly the moves obtained by following a maximal path
      of single jumps that captures at least one piece: nothing is missed and
      nothing else is recorded. */
  lemma {:induction false} ChainsSpec(b: Board, piece: Piece, start: Pos, cur: Pos, caps: seq<Pos>, m: Move)
    ensures m in Chains(b, piece, start, cur, caps) <==>
      exists path :: ChainVia(b, piece, start, cur, caps, m, path)
    decreases Remaining(b, piece.player, caps), 1, 0
  {
    var js := SingleJumps(b, piece, cur, caps);
    if |js| == 0 {
      LeafSpec(b, piece, start, cur, caps, m);
    } else {
      NodeStep(b, piece, start, cur, caps);
      ExpandSpec(b, piece, start, cur, caps, js, m);
      BranchSpec(b, piece, start, cur, caps, m, js, m in Expand(b, piece, start, caps, js));
    }
  }

  lemma UnconsPath(b: Board, piece: Piece, start: Pos, cur: Pos, caps: seq<Pos>, m: Move, path: seq<Move>)
    requires |path| > 0
    ensures ChainVia(b, piece, start, cur, caps, m, path) <==>
      path[0] in SingleJumps(b, piece, cur, caps) &&
      ChainVia(b, piece, start, path[0].to, caps + path[0].captures, m, path[1..])
  {
    assert caps + PathCaptures(path) == (caps + path[0].captures) + PathCaptures(path[1..]);
  }

  /** A jump followed by a maximal path from where it lands is a maximal path. */
  lemma BranchIn(b: Board, piece: Piece, start: Pos, cur: Pos, caps: seq<Pos>, m: Move, jp: Move, rest: seq<Move>)
    requires jp in SingleJumps(b, piece, cur, caps)
    requires ChainVia(b, piece, start, jp.to, caps + jp.captures, m, rest)
    ensures ChainVia(b, piece, start, cur, caps, m, [jp] + rest)
  {
    ConsPath(b, piece, start, cur, caps, m, jp, rest);
  }

  /** Where a jump exists, a maximal path starts with one of the jumps. */
  lemma BranchOut(b: Board, piece: Piece, start: Pos, cur: Pos, caps: seq<Pos>, m: Move, path: seq<Move>)
    returns (jp: Move, rest: seq<Move>)
    requires ChainVia(b, piece, start, cur, caps, m, path)
    requires |SingleJumps(b, piece, cur, caps)| > 0
    ensures jp in SingleJumps(b, piece, cur, caps)
    ensures ChainVia(b, piece, start, jp.to, caps + jp.captures, m, rest)
  {
    PathContinues(b, piece, start, cur, caps, m, path);
    UnconsPath(b, piece, start, cur, caps, m, path);
    jp, rest := path[0], path[1..];
  }

  /** An inner node of the search: its chains are those of its jumps' subtrees. */
  lemma BranchSpec(b: Board, piece: Piece, start: Pos, cur: Pos, caps: seq<Pos>, m: Move, js: seq<Move>, found: bool)
    requires js == SingleJumps(b, piece, cur, caps) && |js| > 0
    requires found <==>
      exists jp, rest :: jp in js && ChainVia(b, piece, start, jp.to, caps + jp.captures, m, rest)
    ensures found <==> exists path :: ChainVia(b, piece, start, cur, caps, m, path)
  {
    if found {
      var jp, rest :| jp in js && ChainVia(b, piece, start, jp.to, caps + jp.captures, m, rest);
      BranchIn(b, piece, start, cur, caps, m, jp, rest);
      assert ChainVia(b, piece, start, cur, caps, m, [jp] + rest);
    } else if exists path :: ChainVia(b, piece, start, cur, caps, m, path) {
      var path :| ChainVia(b, piece, start, cur, caps, m, path);
      var jp, rest := BranchOut(b, piece, start, cur, caps, m, path);
      assert false;
    }
  }

  lemma {:induction false} ExpandSpec(b: Board, piece: Piece, start: Pos, cur: Pos, caps: seq<Pos>, js: seq<Move>, m: Move)
    requires forall j :: j in js ==> j in SingleJumps(b, piece, cur, caps)
    ensures FreshJumps(b, piece.player, caps, js)
    ensures m in Expand(b, piece, start, caps, js) <==>
      exists jp, path :: jp in js && ChainVia(b, piece, start, jp.to, caps + jp.captures, m, path)
    decreases Remaining(b, piece.player, caps), 0, |js|
  {
    if |js| > 0 {
      var last := js[|js| - 1];
      var init := js[..|js| - 1];
      assert last in js;
      assert last in SingleJumps(b, piece, cur, caps);
      var c := last.captures[0];
      assert last.captures == [c];
      RemainingShrinks(b, piece.player, caps, c);
      ChainsSpec(b, piece, start, last.to, caps + [c], m);
      ExpandSpec(b, piece, start, cur, caps, init, m);
      ExpandLast(b, piece, start, caps, js);
      if exists jp, path :: jp in js && ChainVia(b, piece, start, jp.to, caps + jp.captures, m, path) {
        var jp, path :| jp in js && ChainVia(b, piece, start, jp.to, caps + jp.captures, m, path);
        if jp != last {
          InInit(js, jp);
        }
      }
    }
  }
}
