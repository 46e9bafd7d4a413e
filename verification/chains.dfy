/** Capture-chain search (src/app/use_cases/move_validator.py, _find_chains_for_piece).
    The search reads the board as it stood before the move: the moving piece stays
    on its origin square and captured pieces stay on theirs. */
module ChainSearch {

  import opened Optional
  import opened Pieces
  import opened Boards
  import opened Seqs
  import opened Moves

  /** Opponent squares not yet captured in the chain; each jump removes one,
      so the search is finite. */
  function Remaining(b: Board, pl: Player, caps: seq<Pos>): set<Pos> {
    set p | p in b && b[p].player != pl && p !in caps
  }

  lemma RemainingShrinks(b: Board, pl: Player, caps: seq<Pos>, c: Pos)
    requires Capturable(b, pl, caps, c)
    ensures Remaining(b, pl, caps + [c]) < Remaining(b, pl, caps)
  {
    assert c in Remaining(b, pl, caps);
    assert c !in Remaining(b, pl, caps + [c]);
  }

  /** Every jump in `js` captures exactly one uncaptured opponent. */
  predicate FreshJumps(b: Board, pl: Player, caps: seq<Pos>, js: seq<Move>) {
    forall j :: j in js ==> |j.captures| == 1 && Capturable(b, pl, caps, j.captures[0])
  }

  /** The completed chains reachable from `cur` when `caps` have already been
      captured, in the order the stack-driven search records them: the jumps
      found last are explored first. A position with no further jump ends a
      chain, which is recorded only if it captured something. */
  function Chains(b: Board, piece: Piece, start: Pos, cur: Pos, caps: seq<Pos>): (r: seq<Move>)
    ensures forall m :: m in r ==> m.from == start && caps <= m.captures && |m.captures| > 0
    decreases Remaining(b, piece.player, caps), 1, 0
  {
    var js := SingleJumps(b, piece, cur, caps);
    if |js| == 0 then
      if |caps| > 0 then [Move(start, cur, caps)] else []
    else
      Expand(b, piece, start, caps, js)
  }

  /** The chains continuing through each jump of `js`, last jump first. */
  function Expand(b: Board, piece: Piece, start: Pos, caps: seq<Pos>, js: seq<Move>): (r: seq<Move>)
    requires FreshJumps(b, piece.player, caps, js)
    ensures forall m :: m in r ==> m.from == start && caps <= m.captures && |m.captures| > 0
    decreases Remaining(b, piece.player, caps), 0, |js|
  {
    if |js| == 0 then []
    else
      var last := js[|js| - 1];
      var c := last.captures[0];
      RemainingShrinks(b, piece.player, caps, c);
      Chains(b, piece, start, last.to, caps + [c]) + Expand(b, piece, start, caps, js[..|js| - 1])
  }

  // ---------------------------------------------------------------------------
  // The search as the source runs it: a worklist of (square, captures so far)

  datatype Frame = Frame(pos: Pos, caps: seq<Pos>)

  /** What the frames still on the stack will record, top of stack first. */
  ghost function Pending(b: Board, piece: Piece, start: Pos, stack: seq<Frame>): seq<Move>
    decreases |stack|
  {
    if |stack| == 0 then []
    else
      var top := stack[|stack| - 1];
      Chains(b, piece, start, top.pos, top.caps) + Pending(b, piece, start, stack[..|stack| - 1])
  }

  /** Number of search nodes below (and including) a frame. */
  ghost function NodeCount(b: Board, piece: Piece, cur: Pos, caps: seq<Pos>): nat
    decreases Remaining(b, piece.player, caps), 1, 0
  {
    1 + ExpandCount(b, piece, caps, SingleJumps(b, piece, cur, caps))
  }

  ghost function ExpandCount(b: Board, piece: Piece, caps: seq<Pos>, js: seq<Move>): nat
    requires FreshJumps(b, piece.player, caps, js)
    decreases Remaining(b, piece.player, caps), 0, |js|
  {
    if |js| == 0 then 0
    else
      var last := js[|js| - 1];
      RemainingShrinks(b, piece.player, caps, last.captures[0]);
      NodeCount(b, piece, last.to, caps + [last.captures[0]]) +
      ExpandCount(b, piece, caps, js[..|js| - 1])
  }

  ghost function StackCount(b: Board, piece: Piece, stack: seq<Frame>): nat
    decreases |stack|
  {
    if |stack| == 0 then 0
    else
      var top := stack[|stack| - 1];
      NodeCount(b, piece, top.pos, top.caps) + StackCount(b, piece, stack[..|stack| - 1])
  }

  /** The frames pushed for the jumps `js`, in order. */
  function Pushes(caps: seq<Pos>, js: seq<Move>): (r: seq<Frame>)
    requires forall j :: j in js ==> |j.captures| == 1
    ensures |r| == |js|
  {
    if |js| == 0 then []
    else
      var last := js[|js| - 1];
      Pushes(caps, js[..|js| - 1]) + [Frame(last.to, caps + [last.captures[0]])]
  }

  lemma PushesLast(caps: seq<Pos>, js: seq<Move>)
    requires |js| > 0 && forall j :: j in js ==> |j.captures| == 1
    ensures Pushes(caps, js) ==
      Pushes(caps, js[..|js| - 1]) + [Frame(js[|js| - 1].to, caps + [js[|js| - 1].captures[0]])]
  {
  }

  lemma PendingLast(b: Board, piece: Piece, start: Pos, s: seq<Frame>, f: Frame)
    ensures Pending(b, piece, start, s + [f]) ==
      Chains(b, piece, start, f.pos, f.caps) + Pending(b, piece, start, s)
    ensures StackCount(b, piece, s + [f]) ==
      NodeCount(b, piece, f.pos, f.caps) + StackCount(b, piece, s)
  {
    assert (s + [f])[..|s + [f]| - 1] == s;
  }

  lemma ExpandLast(b: Board, piece: Piece, start: Pos, caps: seq<Pos>, js: seq<Move>)
    requires |js| > 0 && FreshJumps(b, piece.player, caps, js)
    ensures Expand(b, piece, start, caps, js) ==
      Chains(b, piece, start, js[|js| - 1].to, caps + [js[|js| - 1].captures[0]]) +
      Expand(b, piece, start, caps, js[..|js| - 1])
    ensures ExpandCount(b, piece, caps, js) ==
      NodeCount(b, piece, js[|js| - 1].to, caps + [js[|js| - 1].captures[0]]) +
      ExpandCount(b, piece, caps, js[..|js| - 1])
  {
  }

  /** Pushing the frames of `js` on top of `rest` leaves exactly the chains
      through `js` to be recorded before those of `rest`. */
  lemma {:induction false} PushesPending(b: Board, piece: Piece, start: Pos, rest: seq<Frame>, caps: seq<Pos>, js: seq<Move>)
    requires FreshJumps(b, piece.player, caps, js)
    ensures Pending(b, piece, start, rest + Pushes(caps, js)) ==
            Expand(b, piece, start, caps, js) + Pending(b, piece, start, rest)
    decreases |js|
  {
    if |js| > 0 {
      var init := js[..|js| - 1];
      var last := js[|js| - 1];
      var f := Frame(last.to, caps + [last.captures[0]]);
      PushesLast(caps, js);
      assert rest + Pushes(caps, js) == (rest + Pushes(caps, init)) + [f];
      PendingLast(b, piece, start, rest + Pushes(caps, init), f);
      assert FreshJumps(b, piece.player, caps, init);
      PushesPending(b, piece, start, rest, caps, init);
      ExpandLast(b, piece, start, caps, js);
      var cf := Chains(b, piece, start, f.pos, f.caps);
      var ei := Expand(b, piece, start, caps, init);
      var pr := Pending(b, piece, start, rest);
      assert Pending(b, piece, start, rest + Pushes(caps, js)) == cf + (ei + pr);
      assert Expand(b, piece, start, caps, js) == cf + ei;
    } else {
      assert rest + Pushes(caps, js) == rest;
    }
  }

  /** Pushing the frames of `js` adds exactly the search nodes below `js`. */
  lemma {:induction false} PushesCount(b: Board, piece: Piece, rest: seq<Frame>, caps: seq<Pos>, js: seq<Move>)
    requires FreshJumps(b, piece.player, caps, js)
    ensures StackCount(b, piece, rest + Pushes(caps, js)) ==
            ExpandCount(b, piece, caps, js) + StackCount(b, piece, rest)
    decreases |js|
  {
    if |js| > 0 {
      var init := js[..|js| - 1];
      var last := js[|js| - 1];
      var f := Frame(last.to, caps + [last.captures[0]]);
      PushesLast(caps, js);
      assert rest + Pushes(caps, js) == (rest + Pushes(caps, init)) + [f];
      PendingLast(b, piece, last.to, rest + Pushes(caps, init), f);
      assert FreshJumps(b, piece.player, caps, init);
      PushesCount(b, piece, rest, caps, init);
      ExpandLast(b, piece, last.to, caps, js);
    } else {
      assert rest + Pushes(caps, js) == rest;
    }
  }

  lemma NodeStep(b: Board, piece: Piece, start: Pos, cur: Pos, caps: seq<Pos>)
    ensures var js := SingleJumps(b, piece, cur, caps);
      && FreshJumps(b, piece.player, caps, js)
      && Chains(b, piece, start, cur, caps) ==
           (if |js| == 0 then (if |caps| > 0 then [Move(start, cur, caps)] else [])
            else Expand(b, piece, start, caps, js))
      && NodeCount(b, piece, cur, caps) == 1 + ExpandCount(b, piece, caps, js)
  {
  }

  /** The source's search: pop a frame, record it if no jump continues it (and
      it captured something), otherwise push one frame per jump. It records
      exactly the chains of the recursive definition, in the same order. */
  method FindChains(b: Board, piece: Piece, start: Pos) returns (chains: seq<Move>)
    ensures chains == Chains(b, piece, start, start, [])
  {
    chains := [];
    var stack := [Frame(start, [])];
    PendingLast(b, piece, start, [], Frame(start, []));
    assert [] + [Frame(start, [])] == stack;
    while |stack| > 0
      invariant chains + Pending(b, piece, start, stack) == Chains(b, piece, start, start, [])
      decreases StackCount(b, piece, stack)
    {
      chains, stack := Visit(b, piece, start, chains, stack);
    }
  }

  /** A frame with no continuing jump is recorded, if it captured anything. */
  function Recorded(start: Pos, top: Frame): seq<Move> {
    if |top.caps| > 0 then [Move(start, top.pos, top.caps)] else []
  }

  lemma LeafStep(b: Board, piece: Piece, start: Pos, chains: seq<Move>, rest: seq<Frame>, top: Frame)
    requires |SingleJumps(b, piece, top.pos, top.caps)| == 0
    ensures (chains + Recorded(start, top)) + Pending(b, piece, start, rest) ==
            chains + Pending(b, piece, start, rest + [top])
    ensures StackCount(b, piece, rest) < StackCount(b, piece, rest + [top])
  {
    PendingLast(b, piece, start, rest, top);
    NodeStep(b, piece, start, top.pos, top.caps);
  }

  lemma BranchStep(b: Board, piece: Piece, start: Pos, rest: seq<Frame>, top: Frame)
    requires |SingleJumps(b, piece, top.pos, top.caps)| > 0
    ensures var js := SingleJumps(b, piece, top.pos, top.caps);
      && FreshJumps(b, piece.player, top.caps, js)
      && Pending(b, piece, start, rest + Pushes(top.caps, js)) == Pending(b, piece, start, rest + [top])
      && StackCount(b, piece, rest + Pushes(top.caps, js)) < StackCount(b, piece, rest + [top])
  {
    var js := SingleJumps(b, piece, top.pos, top.caps);
    PendingLast(b, piece, start, rest, top);
    NodeStep(b, piece, start, top.pos, top.caps);
    PushesPending(b, piece, start, rest, top.caps, js);
    PushesCount(b, piece, rest, top.caps, js);
  }

  /** One round of the search: pop the top frame and either record it as a
      finished chain or push its continuations. Nothing still to be recorded is
      lost or duplicated, and the remaining search shrinks. */
  method Visit(b: Board, piece: Piece, start: Pos, chains: seq<Move>, stack: seq<Frame>)
    returns (chains': seq<Move>, stack': seq<Frame>)
    requires |stack| > 0
    ensures chains' + Pending(b, piece, start, stack') == chains + Pending(b, piece, start, stack)
    ensures StackCount(b, piece, stack') < StackCount(b, piece, stack)
    ensures stack[..|stack| - 1] <= stack'
    ensures chains' == chains || chains' == chains + Recorded(start, stack[|stack| - 1])
  {
    var top := stack[|stack| - 1];
    var rest := stack[..|stack| - 1];
    assert rest + [top] == stack;
    var jumps := SingleJumps(b, piece, top.pos, top.caps);
    if |jumps| == 0 {
      LeafStep(b, piece, start, chains, rest, top);
      chains' := chains + Recorded(start, top);
      stack' := rest;
    } else {
      BranchStep(b, piece, start, rest, top);
      chains' := chains;
      stack' := PushJumps(rest, top.caps, jumps);
    }
  }

  /** Pushes one frame per jump, in the order the jumps were found. */
  method PushJumps(stack: seq<Frame>, caps: seq<Pos>, jumps: seq<Move>) returns (r: seq<Frame>)
    requires forall j :: j in jumps ==> |j.captures| == 1
    ensures r == stack + Pushes(caps, jumps)
  {
    r := stack;
    var k := 0;
    while k < |jumps|
      invariant 0 <= k <= |jumps|
      invariant r == stack + Pushes(caps, jumps[..k])
    {
      var jump := jumps[k];
      assert jumps[..k + 1][..k] == jumps[..k];
      PushesLast(caps, jumps[..k + 1]);
      r := r + [Frame(jump.to, caps + [jump.captures[0]])];
      k := k + 1;
    }
    assert jumps[..k] == jumps;
  }
}
