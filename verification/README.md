# Checkers rule engine, modelled in Dafny

This project models the rule engine of a checkers (draughts) game: pieces and
players, the 8×8 board, the legal-move generator and the turn-by-turn game
manager.

- **Board.** The board is an immutable map from on-grid squares to pieces.
  Reads and writes off the grid do nothing, as in the original.
- **Simple moves.** Men step one square diagonally forward. Kings fly along
  diagonals.
- **Captures.** Men jump in all four directions. Kings capture at range and
  look past opponents already taken earlier in the same chain.
- **Chain search.** Multi-jump chains are found by a stack-driven depth-first
  search. It is modelled twice:
  - as a recursive function (`ChainSearch.Chains`), which terminates because
    every jump takes a fresh opponent square;
  - as a method with an explicit stack (`ChainSearch.FindChains`), proved to
    record exactly the same chains in the same order.
- **Move selection.** Captures are mandatory, and only the chains with the
  largest capture count survive.
- **Game.** A game is a record: board, side to move, winner, and the side to
  move's legal moves. `GameManager.MakeMove` returns whether the move was
  accepted, together with the new game.

Files:

- `optional.dfy`: `Option`.
- `piece.dfy`: players, pieces and their text form.
- `seqs.dfy`: distinctness and counting.
- `board.dfy`: the board and the starting layout.
- `moves.dfy`: simple moves and single jumps.
- `chains.dfy`: the chain search.
- `chain_props.dfy`: what a chain is.
- `validator.dfy`: legal moves.
- `game_manager.dfy`: the turn state machine.
- `scenarios.dfy`: a worked position.

Board size: 8 rows and 8 columns (`Boards.ROWS`, `Boards.COLS`), the module
constants of `src/core/board.py`. Two places where the model departs from the
code as written are listed under "## Left out".

Behaviours of the code that the model keeps:

- **Chain search reads the original board.** During the search the moving
  piece stays on its origin square and captured pieces stay on theirs.
  - So a man's chain can never land back on its own origin square, since that
    square is not empty.
  - A king scanning a ray passes over opponents it has already captured, but
    once it has found its target, any piece, captured or not, ends the run of
    landing squares.
- **Order of recorded chains.** Chains are recorded in stack order: the jump
  found last is explored first.
- **Duplicate chains.** A king can reach the same landing square with the same
  capture list along different routes, so the list may hold duplicates.
- **Winner.** The winner is set only when a recomputed legal list is empty,
  and nothing clears it. A move is refused after the game ends only because
  the legal list is then empty; `make_move` never looks at the winner.
  `GameManager.Consistent` is the invariant linking the two, and every game
  reached from `NewGame` satisfies it.

## Model

| member | source | states |
|---|---|---|
| Pieces.NewPiece | src/core/piece.py:10-13 | a new piece belongs to the given player and is not a king |
| Pieces.MakeKing | src/core/piece.py:15-16 | crowning makes the piece a king and never changes its owner |
| Pieces.MakeKingIdempotent | src/core/piece.py:15-16 | crowning twice equals crowning once; a king is unchanged by it |
| Pieces.Repr | src/core/piece.py:18-28 | the text form is the owner's letter W or B, followed by K exactly for a king |
| Pieces.ReprRoundTrip | src/core/piece.py:18-28 | the text form reads back to the same piece, so it distinguishes all four kinds |
| Pieces.ParseRoundTrip | src/core/piece.py:18-28 | the only texts that read as a piece are "W", "WK", "B", "BK", each the text form of that piece |
| Pieces.Opponent | src/app/use_cases/game_manager.py:32-33 | the other side is never the side itself |
| Boards.Get | src/core/board.py:12-15 | off the grid the answer is empty; on it, the square's contents |
| Boards.Add | src/core/board.py:17-19 | off the grid nothing changes; on it exactly that square takes the piece and every other square is unchanged |
| Boards.Remove | src/core/board.py:21-23 | exactly that square is emptied (a no-op off the grid), every other square is unchanged |
| Boards.MovePiece | src/core/board.py:25-30 | from an empty square nothing changes; otherwise the origin is emptied, the piece appears on the destination if it is on the grid (and disappears if not), and every other square is unchanged |
| Boards.SetupFrom | src/core/board.py:35-42 | the scan from step k places the starting piece on every dark home square from k on and leaves every other square as it was |
| Boards.SetupBoard | src/core/board.py:35-42 | setup puts the starting piece on every dark square of rows 0-2 (Black) and 5-7 (White) and leaves all other squares as they were |
| Boards.SetupEmptyIsStandard | src/core/board.py:35-42 | setting up an empty board gives exactly the standard opening position |
| Boards.StartingPiece | src/core/board.py:38-42 | the opening piece of a square: only dark on-grid squares get one, always a man, Black exactly on rows 0-2 and White exactly on rows 5-7, and every dark square of those rows gets one |
| BoardLayout.StandardSquares | src/core/board.py:35-42 | in the opening position pieces sit only on dark squares and are all men; Black exactly on rows 0-2, White exactly on rows 5-7; rows 3-4 empty; every dark home square occupied |
| BoardLayout.StandardCounts | src/core/board.py:35-42 | each side starts with exactly twelve men, on exactly the dark squares of its three home rows |
| Moves.Slide | src/app/use_cases/move_validator.py:49-63 | every square of a slide is an empty on-grid landing, and every move carries the given origin and captures |
| Moves.SlideSpec | src/app/use_cases/move_validator.py:49-63 | a slide yields exactly the squares behind an unbroken run of empty squares along the ray, up to the first piece or the edge |
| Moves.SlideSound | src/app/use_cases/move_validator.py:49-63 | every square a slide reaches lies behind an unbroken run of empty on-grid squares |
| Moves.SlideComplete | src/app/use_cases/move_validator.py:49-63 | every square behind an unbroken run of empty on-grid squares is reached by the slide |
| Moves.SimpleMoves | src/app/use_cases/move_validator.py:44-76 | every simple move keeps its origin, captures nothing and lands on an empty on-grid square |
| Moves.SimpleMovesSpec | src/app/use_cases/move_validator.py:44-76 | a man's simple moves are exactly the empty on-grid forward diagonal neighbours (row -1 for White, +1 for Black); a king's are exactly the squares reached along a diagonal over empty squares only |
| Moves.ManSimpleSpec | src/app/use_cases/move_validator.py:64-75 | a man's simple moves are exactly its empty on-grid forward diagonal neighbours |
| Moves.ManStep | src/app/use_cases/move_validator.py:68-75 | a man's step along one direction yields at most one move, and yields the one-square diagonal step exactly when that square is an empty on-grid square |
| Moves.KingSlides | src/app/use_cases/move_validator.py:47-63 | the slides along a list of directions keep the origin, capture nothing and land on empty on-grid squares |
| Moves.KingSlidesIn | src/app/use_cases/move_validator.py:48-49 | every move of one direction's slide is among the slides of a direction list that contains it |
| Moves.KingSlidesOut | src/app/use_cases/move_validator.py:48-49 | every move of the slides along a direction list comes from the slide of one of its directions |
| Moves.KingSimpleSpec | src/app/use_cases/move_validator.py:47-63 | a king's simple moves are exactly the ends of clear diagonal runs in any of the four directions |
| Moves.KingScan | src/app/use_cases/move_validator.py:113-138 | every jump found on a ray captures one uncaptured opponent and lands on an empty on-grid square |
| Moves.KingScanSpec | src/app/use_cases/move_validator.py:113-138 | the ray yields exactly the jumps over its first uncaptured opponent to an empty square behind it. Before the target: empty squares and captured opponents are passed over, and an own piece ends the ray. After the target: the landings run up to the next piece or the edge |
| Moves.KingScans | src/app/use_cases/move_validator.py:111-138 | the scans along a list of directions yield only jumps from the origin that capture one uncaptured opponent and land on an empty on-grid square |
| Moves.KingScansIn | src/app/use_cases/move_validator.py:112-113 | every jump of one direction's scan is among the scans of a direction list that contains it |
| Moves.KingScansOut | src/app/use_cases/move_validator.py:112-113 | every jump of the scans along a direction list comes from the scan of one of its directions |
| Moves.ManJump | src/app/use_cases/move_validator.py:141-158 | a man's jump along one direction yields at most one move, and yields the two-square hop exactly when the neighbouring square holds an uncaptured opponent and the square behind it is an empty on-grid square |
| Moves.ManJumps | src/app/use_cases/move_validator.py:139-158 | the man's jumps along a list of directions each capture one uncaptured opponent and land on an empty on-grid square |
| Moves.ManJumpsIn | src/app/use_cases/move_validator.py:140-141 | every jump of one direction is among the jumps of a direction list that contains it |
| Moves.ManJumpsOut | src/app/use_cases/move_validator.py:140-141 | every jump of a direction list comes from one of its directions |
| Moves.SingleJumps | src/app/use_cases/move_validator.py:107-159 | every single jump keeps its origin, captures exactly one opponent not yet captured, and lands on an empty on-grid square |
| Moves.ManJumpsSpec | src/app/use_cases/move_validator.py:139-158 | a man's single jumps are exactly the two-square hops, in any of the four diagonal directions, over an uncaptured opponent onto an empty on-grid square |
| Moves.KingJumpsSpec | src/app/use_cases/move_validator.py:111-138 | a king's single jumps are exactly the ray jumps found along the four diagonals |
| ChainSearch.RemainingShrinks | src/app/use_cases/move_validator.py:97-103 | each jump strictly shrinks the set of uncaptured opponent squares, so the search terminates |
| ChainSearch.Chains | src/app/use_cases/move_validator.py:82-103 | every recorded chain starts on the piece's square, extends the captures made so far and captures at least one piece |
| ChainSearch.Expand | src/app/use_cases/move_validator.py:96-103 | the chains pushed for a node's jumps have the same shape |
| ChainSearch.FindChains | src/app/use_cases/move_validator.py:78-105 | the stack-driven search records exactly the chains of the recursive definition, in the same order |
| ChainSearch.Visit | src/app/use_cases/move_validator.py:84-103 | one pop of the stack either records the popped frame's chain or records nothing, and keeps every frame below it; nothing still to be recorded is lost or duplicated, and the remaining work strictly decreases |
| ChainSearch.PushJumps | src/app/use_cases/move_validator.py:97-103 | one frame is pushed per jump, in the order the jumps were found, each carrying the captures extended by that jump's capture |
| ChainProps.ChainsShape | src/app/use_cases/move_validator.py:82-103 | every recorded chain keeps the start square, captures a non-empty list of pairwise distinct opponent squares, lands on an empty square and cannot jump again |
| ChainProps.RecordedChainShape | src/app/use_cases/move_validator.py:78-105 | a chain found from scratch for a piece has that shape |
| ChainProps.ChainsSpec | src/app/use_cases/move_validator.py:78-105 | a chain is recorded exactly when it is the result of a maximal path of legal single jumps that captures at least one piece |
| ChainProps.ExpandSpec | src/app/use_cases/move_validator.py:96-103 | the chains through a node's jumps are exactly the maximal paths starting with one of those jumps |
| MoveValidator.PieceChains | src/app/use_cases/move_validator.py:27-31 | only a square holding the player's piece has chains; each starts there and captures something |
| MoveValidator.PieceSimples | src/app/use_cases/move_validator.py:27-35 | simple moves are collected only for the player's pieces that have no chain, start on the piece, capture nothing |
| MoveValidator.ChainsFrom | src/app/use_cases/move_validator.py:25-31 | the scan collects exactly the chains of the player's pieces on the squares it visits |
| MoveValidator.SimplesFrom | src/app/use_cases/move_validator.py:25-35 | the scan collects exactly the simple moves of the player's pieces without a chain on the squares it visits |
| MoveValidator.CaptureCandidates | src/app/use_cases/move_validator.py:22-31 | every collected chain starts on a square holding the player's piece and captures something |
| MoveValidator.SimpleCandidates | src/app/use_cases/move_validator.py:22-35 | every collected simple move starts on a square holding the player's piece and captures nothing |
| MoveValidator.MaxCaptures | src/app/use_cases/move_validator.py:38 | the maximum capture count bounds every chain and is attained by one when there is any |
| MoveValidator.WithCaptureCount | src/app/use_cases/move_validator.py:39 | the filter keeps exactly the moves with the given capture count |
| MoveValidator.LegalMoves | src/app/use_cases/move_validator.py:20-42 | every legal move starts on a square holding one of the player's pieces |
| MoveValidator.CandidatesSpec | src/app/use_cases/move_validator.py:25-35 | the collected chains are exactly the chains of the player's pieces anywhere on the grid, and likewise the simple moves |
| MoveValidator.CaptureAvailableSpec | src/app/use_cases/move_validator.py:29-37 | some chain was collected exactly when some piece of the player has one |
| MoveValidator.LegalWhenCapturing | src/app/use_cases/move_validator.py:37-40 | with chains collected, the legal moves are exactly those of maximal capture count |
| MoveValidator.MaxIsGlobal | src/app/use_cases/move_validator.py:37-40 | the maximum bounds every chain of every piece of the player and is reached by one of them |
| MoveValidator.MandatoryCapture | src/app/use_cases/move_validator.py:37-40 | when any piece can capture, the legal moves are exactly the chains no other chain beats in length, there is at least one, and all capture |
| MoveValidator.NoCaptureSimpleMoves | src/app/use_cases/move_validator.py:33-42 | when no piece can capture, the legal moves are exactly the simple moves of the player's pieces, none capturing |
| MoveValidator.NoLegalMoves | src/app/use_cases/move_validator.py:20-42 | there is no legal move exactly when no piece of the player has a chain or a simple move |
| MoveValidator.SimpleWitness | src/app/use_cases/move_validator.py:25-42 | without captures, the first collected simple move starts on one of the player's pieces and is one of that piece's simple moves |
| MoveValidator.SimpleCandidate | src/app/use_cases/move_validator.py:25-42 | without captures, any simple move of any of the player's pieces makes the collected simple list non-empty |
| MoveValidator.LegalMoveShape | src/app/use_cases/move_validator.py:20-42 | every legal move starts on the player's piece, lands on an empty on-grid square and captures pairwise distinct opponent squares |
| MoveValidator.ChainCandidateShape | src/app/use_cases/move_validator.py:25-31 | every collected chain starts on the player's piece, lands on an empty on-grid square and captures pairwise distinct opponent squares |
| MoveValidator.SimpleCandidateShape | src/app/use_cases/move_validator.py:25-35 | every collected simple move starts on the player's piece, lands on an empty on-grid square and captures nothing |
| GameManager.UpdateLegalMoves | src/app/use_cases/game_manager.py:24-30 | the legal list is the generator's output for the side to move; empty, it makes the other side the winner, otherwise the winner is untouched |
| GameManager.SwitchTurn | src/app/use_cases/game_manager.py:32-34 | the side to move flips and the legal list is recomputed for it on the same board |
| GameManager.SetupGame | src/app/use_cases/game_manager.py:20-22 | setup places the starting pieces and computes the legal list for the side to move |
| GameManager.NewGame | src/app/use_cases/game_manager.py:9-22 | a new game is White to move on the standard opening with the generator's moves for White |
| GameManager.NewGameState | src/app/use_cases/game_manager.py:9-22 | a new game has White to move on the standard board, a non-empty legal list, no winner, and is consistent |
| GameManager.WhiteCanOpen | src/app/use_cases/game_manager.py:9-22 | White has a legal move in the opening position, so no winner is declared at the start |
| GameManager.PromotionRow | src/app/use_cases/game_manager.py:58-61 | a player's promotion row is the on-grid row from which a forward step would leave the board |
| GameManager.Arrived | src/app/use_cases/game_manager.py:58-64 | the arriving piece keeps its owner and is a king exactly when it was one or lands on its promotion row (row 0 for White, row 7 for Black) |
| GameManager.RemoveAll | src/app/use_cases/game_manager.py:55-56 | removing the captures empties exactly the captured squares |
| GameManager.PromoteAt | src/app/use_cases/game_manager.py:58-64 | crowning changes only the named square, and only if a piece stands there |
| GameManager.ApplyMove | src/app/use_cases/game_manager.py:47-64 | applying a move empties every captured square and leaves every square other than the origin, the destination and the captures unchanged |
| GameManager.ApplyMoveSpec | src/app/use_cases/game_manager.py:47-64 | for any move, square by square: captured squares end empty, the on-grid destination holds the arriving (possibly crowned) piece, the origin is emptied, and everything else is unchanged |
| GameManager.ApplyLegalMove | src/app/use_cases/game_manager.py:47-64 | for a legal move the mover relocates to the destination (crowned on its promotion row), its origin and every captured square end empty, and no other square changes |
| GameManager.NotCaptured | src/app/use_cases/game_manager.py:53-56 | a legal move never captures its own origin or destination, so the mover is never removed by its own captures |
| GameManager.LegalIsPlayed | src/app/use_cases/game_manager.py:47-64 | applying a legal move gives a board of the played shape |
| GameManager.MakeMove | src/app/use_cases/game_manager.py:37-68 | a move is accepted exactly when it is in the legal list; refused, the game is unchanged; accepted, the board is the applied move, the turn flips and the legal list is recomputed |
| GameManager.MakeMoveConsistent | src/app/use_cases/game_manager.py:24-68 | playing any move keeps the game consistent; after an accepted move, the side that moved wins exactly when the other side has no legal move |
| GameManager.GameOverRejects | src/app/use_cases/game_manager.py:24-44 | once a consistent game has a winner every move is refused and nothing changes |
| GameManager.WinnerMeansStuck | src/app/use_cases/game_manager.py:24-30 | a consistent game has a winner exactly when no piece of the side to move has a chain or a simple move |
| GameManager.EliminatedLoses | src/app/use_cases/game_manager.py:24-30 | a side with no pieces left has no legal move, and the other side is declared the winner |
| GameManager.MoverSquares | src/app/use_cases/game_manager.py:47-56 | after a legal move the mover's squares are the old ones minus the origin plus the destination |
| GameManager.OpponentSquares | src/app/use_cases/game_manager.py:53-56 | after a legal move the opponent's squares are the old ones minus exactly the captured squares, all of which held opponents |
| GameManager.PlayedCounts | src/app/use_cases/game_manager.py:47-56 | a board of the played shape keeps the mover's piece count and lowers the opponent's by the number of captured squares |
| GameManager.LegalMoveCounts | src/app/use_cases/game_manager.py:47-56 | a legal move leaves the mover's piece count unchanged and lowers the opponent's by the number of captures |
| GameManager.MakeMoveCounts | src/app/use_cases/game_manager.py:37-68 | an accepted move in a consistent game keeps the mover's count and lowers the opponent's by the number of captures |
| Scenarios.FacingChains | src/app/use_cases/move_validator.py:78-105 | a man facing a lone opponent with the square behind it free has exactly one chain, the single jump |
| Scenarios.OpeningJumps | src/app/use_cases/move_validator.py:139-158 | the man's single jumps from (4, 3) are exactly the one over (3, 2) |
| Scenarios.LandingJumps | src/app/use_cases/move_validator.py:139-158 | after that capture the man on (2, 1) has no single jump |
| Scenarios.FacingCandidates | src/app/use_cases/move_validator.py:25-31 | the capture is White's only collected chain |
| Scenarios.FacingCapture | src/app/use_cases/move_validator.py:20-42 | in that position the only legal move of White is the capture from (4, 3) over (3, 2) to (2, 1) |
| Scenarios.OpeningNoCapture | src/app/use_cases/move_validator.py:25-37 | in the opening position no White piece has a capture chain |
| Scenarios.OpeningStep | src/app/use_cases/move_validator.py:64-75 | in the opening, a White man's forward step onto an empty square is one of the seven front-row advances |
| Scenarios.OpeningMovesSpec | src/app/use_cases/move_validator.py:20-42 | in the opening position White's legal moves are exactly the seven forward steps of its four front-row men: (5,0)→(4,1), (5,2)→(4,1), (5,2)→(4,3), (5,4)→(4,3), (5,4)→(4,5), (5,6)→(4,5), (5,6)→(4,7), none capturing |

## Left out

- The attribute reads `board.ROWS`, `board.COLS` (`src/app/use_cases/move_validator.py:25-26, 50, 116`) and `self.board.ROWS` (`src/app/use_cases/game_manager.py:61`): the `Board` class defines no such attribute, only the module constants `ROWS, COLS = 8, 8` (`src/core/board.py:4`), so the generator as written raises `AttributeError` on its first call. The model uses the constants, 8 and 8, which the authors evidently meant.
- `from typing import Optional, list` (`src/app/use_cases/game_manager.py:5`): `typing` has no `list`, so the module fails at import time. The import has no counterpart in the model.

- `Board.__repr__` (`src/core/board.py:44-58`): debug text rendering.
- The error message printed by `make_move` (`src/app/use_cases/game_manager.py:43`): output only. A refused move is modelled as the `false` result with an unchanged game.
- The getters `get_board`, `get_current_player`, `get_legal_moves` and `get_winner` (`src/app/use_cases/game_manager.py:70-83`): each returns one field of the game record, modelled as the `Game` fields `board`, `current`, `legalMoves` and `winner`.
- `Board.is_within_bounds` (`src/core/board.py:32-33`) is the predicate `Boards.InBounds`. It has no contract of its own; its meaning shows in the contracts of `Get`, `Add`, `Remove` and `MovePiece`.
- Python object identity:
  - Pieces are values. `make_king` mutates the piece object that the move just relocated, and the model crowns the piece now standing on the destination, which is the same piece.
  - The Python board is mutated in place. The model returns a new board, and the game manager holds it.
- `Board.deep_copy`, which the AI modules call: `src/core/board.py` does not define it, so it has no counterpart here.
- The AI players, trainer and neural network, the pygame UI and menus, and the unused alternative `Move` class: these are outside the rule engine (PyTorch, floating point, randomness, file I/O, rendering).
- `Scenarios.FacingCapture`: states which moves are in White's legal list, not the list's length, since it does not rule out the same move being listed twice.
