# connect5 in Dafny

A model of the core of LemonPi/connect5, a five-in-a-row game played over
a websocket server, with a minimax AI client. The model covers both sides.

On the server:

- **`Games`** (game.js). A `Game` is a class holding the board, the player
  slots, the turn and the status. `Join`, `Move`, `UpdateStatus` and
  `SetWin` update it in place. Each method is proved to perform one
  transition of a value-level `GameState`. The properties of those
  transitions are proved as lemmas: joining fills the slots in order; a
  move is refused exactly when the source refuses it; a move wins exactly
  when the placed stone completes a line of five.
- **`Registry`** (states.js). The module-level game table, subscriptions
  and player names become the fields of a `Registry` object. The name
  table is an insertion-ordered list, because its keys are random numbers
  and JavaScript keeps such keys in insertion order. Subscriptions are a
  map over integer game ids, which JavaScript visits in ascending order.

In the AI client:

- **`Search`** (common/session.js). The generic `Session`: minimax with
  alpha-beta pruning over visitor methods that a concrete session
  registers.
  - The visitor is a record of functions over an abstract state.
  - `MinimaxAB` is the recursive method. `AlphaBeta` is the function that
    specifies it.
  - `SearchProofs` proves what the search guarantees for any lawful
    visitor (one whose revert undoes its move):
    - the state is restored after the search;
    - when the evaluation is never NaN and no candidate is terminal (true
      of both sessions of the client), the value is fail-soft with
      respect to plain minimax, and exactly minimax on the full window; a
      concrete visitor shows that a terminal candidate after a cutoff
      breaks this;
    - the reported move attains the value;
    - every child was searched inside the window current when it was
      tried.
- **`AgentEval`** and **`Agents`** (agent/agent.js). `AgentEval` holds the
  linking and blocking evaluators as objects with `start`, `consumePiece`
  and `getScore`, the SPACE table, and the four-axis scan of
  `evaluateMove`. `Agents` holds the `Agent` class and its incremental
  index of move scores. The index is modelled by two fields:
  - `nodeKeys`, the key of every cell's node;
  - `moveScores`, the set of cells still in the move tree.

  `updateMoveScoresAfterMove` re-scores the star of up to four cells in
  each of the eight directions and returns the log of old keys. The model
  proves that `revertMoveScores` with that log restores the index exactly.
- **`AgentSessions`** (agent/session.js). Two agents over one shared board.
  The session's visitor is proved lawful, so every search result above
  applies to it. The move order is the agent's tree read from the highest
  key down. It is proved to be exactly the tree's members, without
  repetition, with keys non-increasing.
- **`StateSessions`** (state/session.js). The whole-board session:
  - `BreadthFirstSearch` visits every cell once, layer by layer of king
    distance from the centre;
  - the move order is the empty cells in that order;
  - the placement table decays with that distance;
  - `evaluateBoard` is modelled loop for loop as a run scan over rows,
    columns and both diagonal families;
  - the early-reject heuristic rejects a move below the top ply exactly
    when no neighbour is occupied.

JavaScript numbers appear as `JsNumbers.Num`: a real, plus ±Infinity and
NaN, with JavaScript's comparison and addition rules. They are used where
the source can reach those values: the search's ±Infinity start values,
and the NaN that an out-of-range table lookup adds to a score.

`Defines` holds the shared cell values and the `WIN`/`LOSS` stand-ins.
`Grids` holds the board as a sequence of rows, with a `Board` object that
every session and agent shares.

## Model

| member | source | states |
|---|---|---|
| Defines.NextPlayer | game.js:18-20 | the opponent of P1 is P2 and of P2 is P1; a player's opponent is a player other than itself |
| Defines.NextPlayerInvolution | game.js:18-24 | the opponent's opponent is the player itself, so prevPlayer and nextPlayer agree |
| JsNumbers.Add | ai_client/src/state/session.js:151-175 | `+` on two finite numbers is their real sum, and NaN on either side gives NaN |
| JsNumbers.AddZero | ai_client/src/state/session.js:162-163 | adding the table entry 0 leaves any score unchanged, NaN and infinities included |
| JsNumbers.Neg | ai_client/src/state/session.js:153 | negation keeps finite numbers finite with the opposite sign, and is NaN exactly on NaN |
| JsNumbers.Sub | ai_client/src/state/session.js:153 | `-=` on finite numbers is real subtraction, and NaN on either side gives NaN |
| JsNumbers.GtTotalOrder | ai_client/src/common/session.js:137-154 | away from NaN, the `>` the search compares with is irreflexive, asymmetric, transitive and total |
| Grids.Write | ai_client/src/state/session.js:255-257 | writing a cell keeps the board's shape, sets that cell and leaves every other cell as it was |
| Grids.WriteBack | ai_client/src/state/session.js:255-261 | writing a piece into an empty cell and then EMPTY back gives the original board |
| Grids.Board.constructor | ai_client/src/common/session.js:17-21 | the shared board holds the given square grid |
| Grids.Board.Put | ai_client/src/agent/session.js:77 | `board[r][c] = v` on the shared board is `Write` of the old cells |
| Games.EmptyGrid | game.js:31-36 | the new board is size × size and all zero |
| Games.NewGame | game.js:27-42 | a new game is well formed: square empty board, P1 to move, two empty slots, waiting for players |
| Games.JoinSlots | game.js:49-62 | join takes slot 1 exactly when it holds a falsy name, else slot 2 exactly when that one is falsy (then waiting turns into in progress), else returns 0 and changes nothing; board, turn and size never change |
| Games.ThreeJoins | game.js:49-62 | on a new game, two non-empty names get P1 and P2 and start the game; a third join is refused and changes nothing |
| Games.CountRunMaximal | game.js:70-83 | each counting loop counts exactly the unbroken run of the player's stones from the placed cell in its direction: every counted cell is on the board and the player's, and no longer such run exists |
| Games.RunCounted | game.js:70-147 | the count in each direction is the longest run of the player's stones there |
| Games.WinsIffLine | game.js:64-153 | updateStatus declares a win exactly when, along some axis, the runs on both sides plus the placed stone reach REQ_CONNECT (5) |
| Games.WinStatusOf | game.js:208-214 | the reported winner is a player, and not the one whose turn it is |
| Games.MoveOutcome | game.js:165-194 | for any location: a move throws exactly when it passes the turn, status and name checks with its row off the board; otherwise it succeeds exactly when it passes those checks and the cell is 0; a refused move changes nothing; a successful one writes the stone and passes the turn to the other player |
| Games.MoveWins | game.js:165-194 | a successful move was on the board, and after it the game is over exactly when the stone completes a line of five; the status then names the mover, and getWinStatus reports the mover; otherwise the game stays in progress |
| Games.GameOverFinal | game.js:171-174 | once the game is won, every move, wherever it points, is refused and nothing changes |
| Games.SizeOf | game.js:1-28 | a new game's size is the creation data's size when given, otherwise the default 19 |
| Games.Game.constructor | game.js:27-42 | the object's state is `NewGame` of the data's size, 19 when none is given |
| Games.Game.Join | game.js:49-62 | the returned slot and the new state are those of `Joined` |
| Games.Game.CountDirection | game.js:70-76 | the loop returns the run length `CountRun` in its direction |
| Games.Game.UpdateStatus | game.js:64-153 | the new state is `StatusAfter` of the old one, which wins exactly when `Wins` holds |
| Games.Game.SetWin | game.js:155-163 | P1 sets "player 1 won", P2 sets "player 2 won", anything else leaves the status; the player is returned |
| Games.Game.Move | game.js:165-194 | for any location, the result and the new state are those of `Moved` (see MoveOutcome and MoveWins); on a row off the board it reports the throw and changes nothing |
| Games.Game.GetState | game.js:196-202 | reports the status message, the player slots and the turn; the message names a win exactly when the game is over |
| Games.StatusMessageInjective | game.js:11-14 | the four status messages are distinct, so a report determines the status |
| Games.Game.IsGameOver | game.js:204-206 | true exactly when the status is one of the two win statuses |
| Games.Game.GetWinStatus | game.js:208-214 | reports the previous player and the status message |
| Registry.Subscribed | states.js:17-23 | subscribing creates the game's set if missing, adds the client to it and leaves every other game's set alone |
| Registry.SubscribeIdempotent | states.js:17-23 | subscribing twice is subscribing once; the set grows by the client, or is created holding only the client |
| Registry.LeastHolder | states.js:24-33 | the game unsubscribe stops at is the lowest-numbered game holding the client |
| Registry.Unsubscribed | states.js:24-33 | unsubscribing keeps the set of game ids |
| Registry.UnsubscribeFirstOnly | states.js:24-33 | only the first game holding the client loses it; the other games' sets are unchanged, including later games that also hold the client |
| Registry.SetName | states.js:36-41 | a name write keeps the uids of existing entries in place and adds at most one entry |
| Registry.SetNameLookup | states.js:36-41 | after `names[uid] = name`, looking up uid gives the name, every other uid gives what it gave before, and uids stay unique |
| Registry.RemovedNameHidden | states.js:39-50 | after removeName the uid maps to null, and getNames lists only names of other uids |
| Registry.SetNameEntry | states.js:36-41 | each entry after a write is either the written uid with the new name or an untouched old entry of another uid |
| Registry.TruthyNamesExact | states.js:42-50 | getNames lists exactly the truthy names in the table, with no more entries than the table |
| Registry.Ids | states.js:9-11 | the game ids after n creations are exactly 1..n |
| Registry.Registry.constructor | states.js:6-16 | no games, no subscriptions, no names, counter 0 |
| Registry.Registry.NewGame | states.js:9-11 | the counter goes up by one and a fresh new game of the data's size (19 by default) is stored under it; nothing else changes |
| Registry.Registry.GetCounter | states.js:12-14 | returns the counter |
| Registry.Registry.Subscribe | states.js:17-23 | the subscriptions become `Subscribed(old, game, client)`; nothing else changes |
| Registry.Registry.Unsubscribe | states.js:24-33 | the loop scans game ids in ascending order and deletes the client from the first set holding it: the result is `Unsubscribed` |
| Registry.Registry.AddName | states.js:36-38 | the name table becomes `SetName(old, uid, Some(name))` |
| Registry.Registry.RemoveName | states.js:39-41 | the name table becomes `SetName(old, uid, None)`, the null write |
| Registry.Registry.GetNames | states.js:42-50 | the loop returns `TruthyNames` of the table |
| AgentEval.Decay | ai_client/src/agent/agent.js:38-41 | SPACE_DECAY to the power k lies in (0, 1] |
| AgentEval.SpaceClosedForm | ai_client/src/agent/agent.js:38-41 | the SPACE recurrence has the closed form SPACE[d] = (1 - 0.8^d) / 2 |
| AgentEval.SpaceRange | ai_client/src/agent/agent.js:33-41 | SPACE[d] lies in [0, 0.5), and is 0 exactly for d = 0 |
| AgentEval.SpaceIncreasing | ai_client/src/agent/agent.js:38-41 | more space always scores strictly more |
| AgentEval.DecayDecreasing | ai_client/src/agent/agent.js:38-39 | a higher power of the decay is strictly smaller |
| AgentEval.BuildSpaceTable | ai_client/src/agent/agent.js:36-41 | the table loop produces SPACE_MAX entries, each equal to `Space(d)` |
| AgentEval.Consume | ai_client/src/agent/agent.js:77-90 | a stopped scan stays put; an opposing piece or a full count stops it; an own piece after a gap is ignored; the count never passes its cap; only the scanned side's space grows, by at most one |
| AgentEval.StoppedIsFinal | ai_client/src/agent/agent.js:78-79 | once stopped, consuming any further pieces changes nothing |
| AgentEval.CountBounded | ai_client/src/agent/agent.js:80 | the linked (or blocked) count never exceeds LINK_MAX (or BLOCK_MAX) |
| AgentEval.LinkScore | ai_client/src/agent/agent.js:91-123 | linking scores 0 exactly when space plus links cannot reach LINK_MAX, scores WIN exactly with LINK_MAX links, and otherwise at most LINK_4_BOTH |
| AgentEval.BlockScore | ai_client/src/agent/agent.js:148-183 | blocking scores 0 exactly when space plus blocks is below BLOCK_MIN, and scores BLOCK_MORE_THAN_4 exactly past 4 blocks; it always lies in [0, 40] |
| AgentEval.LinkScoreTiers | ai_client/src/agent/agent.js:99-119 | the tier for each link count below LINK_MAX (0 or 1 links: the space score plus LINK per link); with 2 links only the left space decides "both", because the source tests `space[LEFT]` twice |
| AgentEval.BlockScoreTiers | ai_client/src/agent/agent.js:156-182 | the tier for each block count, with the same repeated left-space test for 2 blocks |
| AgentEval.AxisStep | ai_client/src/agent/agent.js:255-260 | one round of an axis scan keeps each side's space below the distance reached, and the link count within LINK_MAX |
| AgentEval.AxisRun | ai_client/src/agent/agent.js:249-261 | the rest of an axis scan keeps the same bounds |
| AgentEval.AxisEvals | ai_client/src/agent/agent.js:248-261 | a whole axis scan leaves spaces below the board size and links within LINK_MAX |
| AgentEval.AxisScore | ai_client/src/agent/agent.js:262 | an axis score is non-negative, and reaches WIN exactly when its linking scan found LINK_MAX links |
| AgentEval.MoveScoreWinning | ai_client/src/agent/agent.js:240-316 | evaluateMove is non-negative, and reaches WIN exactly when some axis links LINK_MAX own pieces |
| AgentEval.AxisRunIgnoresCell | ai_client/src/agent/agent.js:249-261 | an axis scan never reads the cell it scores from |
| AgentEval.AxisStepIgnoresCell | ai_client/src/agent/agent.js:255-260 | one scan round never reads the scored cell |
| AgentEval.MoveScoreIgnoresCell | ai_client/src/agent/agent.js:240-316 | evaluateMove(r, c) does not depend on what is at (r, c) |
| AgentEval.SpaceEntry | ai_client/src/agent/agent.js:36-41 | `SPACE[d]` is the table's value below SPACE_MAX and undefined (NaN in a sum) from SPACE_MAX on |
| AgentEval.LinkScoreJsMeaning | ai_client/src/agent/agent.js:91-123 | on any space, the linking score is NaN exactly when the space test passes, at most 2 pieces are linked and a side's space is past the table; within the table it is the real score |
| AgentEval.BlockScoreJsMeaning | ai_client/src/agent/agent.js:148-183 | the same for the blocking score, with BLOCK_MIN |
| AgentEval.AxisScoreJsAgrees | ai_client/src/agent/agent.js:262 | within the table, one axis's JavaScript score is its real score |
| AgentEval.MoveScoreJsAgrees | ai_client/src/agent/agent.js:240-316 | on boards up to SPACE_MAX a side, evaluateMove is the finite real score the index uses |
| AgentEval.EmptyRowSpace | ai_client/src/agent/agent.js:248-261 | scanning an empty top row from the corner never stops and counts every further cell as space on the right |
| AgentEval.WideBoardNaN | ai_client/src/agent/agent.js:36-41 | on a side wider than SPACE_MAX, the corner of an empty top row reads past the SPACE table and evaluateMove is NaN |
| AgentEval.LinkingEvaluation.constructor | ai_client/src/agent/agent.js:67-69 | the evaluator starts at the initial scan |
| AgentEval.LinkingEvaluation.Start | ai_client/src/agent/agent.js:70-75 | start resets to no links, not stopped, no space |
| AgentEval.LinkingEvaluation.ConsumePiece | ai_client/src/agent/agent.js:77-90 | the fields take the values of `Consume` with own pieces linking, the opponent stopping and cap LINK_MAX |
| AgentEval.LinkingEvaluation.GetScore | ai_client/src/agent/agent.js:91-123 | getScore marks the scan stopped and returns `LinkScore` of the scan |
| AgentEval.BlockingEvaluation.constructor | ai_client/src/agent/agent.js:125-127 | the evaluator starts at the initial scan |
| AgentEval.BlockingEvaluation.Start | ai_client/src/agent/agent.js:128-132 | start resets to no blocks, not stopped, no space |
| AgentEval.BlockingEvaluation.ConsumePiece | ai_client/src/agent/agent.js:134-146 | `Consume` with the roles swapped: opponent pieces count, own pieces stop, cap BLOCK_MAX |
| AgentEval.BlockingEvaluation.GetScore | ai_client/src/agent/agent.js:148-183 | getScore marks the scan stopped and returns `BlockScore` of the scan |
| Agents.ScoresKeys | ai_client/src/agent/agent.js:191-209 | the initial index has a node for every cell of the board |
| Agents.ScoresAt | ai_client/src/agent/agent.js:196-203 | each cell's initial key is evaluateMove of that cell |
| Agents.StarScores | ai_client/src/agent/agent.js:341-381 | every cell on a star ray is keyed by its evaluateMove score |
| Agents.Rekeyed | ai_client/src/agent/agent.js:318-327 | re-keying cells never adds or removes nodes |
| Agents.Entries | ai_client/src/agent/agent.js:326 | the log holds one entry per updated cell, naming the cell and its key before the update |
| Agents.RayFromShape | ai_client/src/agent/agent.js:341-343 | a ray's remaining cells are consecutive steps, on the board, within UPDATE_DIST |
| Agents.RayShape | ai_client/src/agent/agent.js:341-381 | each ray holds at most UPDATE_DIST cells, the k-th being k steps out, all on the board |
| Agents.RaysUpToShape | ai_client/src/agent/agent.js:340-381 | the first j rays together hold at most 4j cells, each on the board and 1 to 4 steps out along one of those directions |
| Agents.RaysInBounds | ai_client/src/agent/agent.js:340-381 | every star cell is a board cell |
| Agents.DirectionsShape | ai_client/src/agent/agent.js:341-380 | the eight loop directions are unit steps and pairwise different |
| Agents.RayFresh | ai_client/src/agent/agent.js:340-381 | a ray shares no cell with the earlier rays or with the move itself |
| Agents.RayDistinct | ai_client/src/agent/agent.js:341-343 | no ray repeats a cell |
| Agents.RaysUpToDistinct | ai_client/src/agent/agent.js:340-381 | the whole star repeats no cell and excludes the move |
| Agents.MoveLogShape | ai_client/src/agent/agent.js:329-383 | the returned log starts with the move and its old key, holds at most 33 entries, repeats no cell and names only board cells |
| Agents.MoveLogDistinct | ai_client/src/agent/agent.js:329-383 | the log starts with the move and names each cell at most once |
| Agents.MoveLogNear | ai_client/src/agent/agent.js:329-383 | apart from the move itself, every logged cell is 1 to UPDATE_DIST steps away from it |
| Agents.RaysNear | ai_client/src/agent/agent.js:340-381 | the star is exactly within king distance 1 to 4 of the move |
| Agents.MoveLogKeys | ai_client/src/agent/agent.js:329-383 | each log entry records the key its cell had before the update |
| Agents.RevertKeysFrom | ai_client/src/agent/agent.js:385-400 | reverting a log restores the logged key of every logged cell and leaves unlogged keys alone |
| Agents.RevertExact | ai_client/src/agent/agent.js:385-400 | if only logged cells changed, reverting the log gives back the keys exactly |
| Agents.OffLogUntouched | ai_client/src/agent/agent.js:329-383 | a cell outside the log keeps its key through the update |
| Agents.KeysRoundTrip | ai_client/src/agent/agent.js:329-400 | revertMoveScores(updateMoveScoresAfterMove(r, c)) restores every key |
| Agents.IndexRoundTrip | ai_client/src/agent/agent.js:329-400 | the round trip also restores tree membership: the move is re-inserted |
| Agents.RekeyedThen | ai_client/src/agent/agent.js:340-381 | re-keying one list of cells and then another is re-keying their concatenation |
| Agents.Agent.constructor | ai_client/src/agent/agent.js:59-65 | a new agent has otherPlayer = nextPlayer(player), and its index holds every cell's evaluateMove key, with the empty cells in the tree |
| Agents.Agent.InitMoveScores | ai_client/src/agent/agent.js:191-210 | every cell gets a node keyed by evaluateMove, and exactly the empty cells stay in the tree |
| Agents.Agent.InitCell | ai_client/src/agent/agent.js:196-207 | one cell of the init loop: it adds that cell's key, and adds the cell to the tree only when it is empty |
| Agents.Agent.EvaluateMove | ai_client/src/agent/agent.js:240-316 | the four scans return `MoveScore` of the board at the cell |
| Agents.Agent.EvalConsume | ai_client/src/agent/agent.js:217-220 | both evaluators consume the piece, as `ConsumeBoth` |
| Agents.Agent.ScanStep | ai_client/src/agent/agent.js:255-260 | one loop round consumes the left cell, then the right cell, each if on the board |
| Agents.Agent.ScanRound | ai_client/src/agent/agent.js:249-261 | the loop stops exactly when both sides are off the board or both evaluators stopped; otherwise it takes one step |
| Agents.Agent.RunAxis | ai_client/src/agent/agent.js:248-261 | the axis loop leaves the evaluators at `AxisEvals` |
| Agents.Agent.ScanAxis | ai_client/src/agent/agent.js:248-262 | one axis adds `AxisScore` |
| Agents.Agent.UpdateMove | ai_client/src/agent/agent.js:318-327 | returns the cell and its old key; re-keys it to its new evaluateMove score only if it is empty; tree membership is unchanged |
| Agents.Agent.UpdateAfter | ai_client/src/agent/agent.js:342 | one update appends its log entry and re-keys one more ray cell |
| Agents.Agent.UpdateRay | ai_client/src/agent/agent.js:341-343 | one direction loop re-keys the ray's cells and logs their old keys in order |
| Agents.Agent.UpdateDirection | ai_client/src/agent/agent.js:340-381 | after j directions, the log and the keys are those of the first j rays |
| Agents.Agent.UpdateStar | ai_client/src/agent/agent.js:340-381 | the eight loops append the logs of all eight rays and re-key the whole star |
| Agents.Agent.UpdateMoveScoresAfterMove | ai_client/src/agent/agent.js:329-383 | returns `MoveLog` (the move first); erases the move from the tree; re-keys every empty star cell to its new score |
| Agents.Agent.RevertMoveScores | ai_client/src/agent/agent.js:385-400 | restores each logged key and re-inserts the first entry's cell (see KeysRoundTrip) |
| Search.RegisterVisitorMethods | ai_client/src/common/session.js:34-41 | the registered methods are the given ones; earlyRejectHeuristic defaults to "never reject" |
| Search.Absorb | ai_client/src/common/session.js:135-155 | a child value replaces the best value and move exactly when strictly better; a max node raises alpha to the value when greater, and a min node lowers beta |
| Search.AlphaBeta | ai_client/src/common/session.js:85-168 | the principal variation is at most depth moves long, and at least one entry long below the root (what precedes its last entry: SearchProofs.AlphaBetaPv) |
| Search.AlphaBetaScan | ai_client/src/common/session.js:107-165 | the candidate loop returns a principal variation of 1 to depth entries |
| Search.MinimaxAB | ai_client/src/common/session.js:85-168 | the recursive method returns the value, move list and state of `AlphaBeta` |
| Search.GetMove | ai_client/src/common/session.js:48-61 | getMove searches from the root over (LOSS, WIN); it throws exactly when the principal variation holds a `null` entry, which the logging loop hands to getMoveRC; otherwise it returns the variation's last move, a real move below depth 0 |
| Search.Session.constructor | ai_client/src/common/session.js:17-32 | playing, search depth 5, and a zeroed score board the size of the board |
| Search.Session.SetDifficulty | ai_client/src/common/session.js:67-70 | the search depth becomes the difficulty |
| Search.Session.StopPlaying | ai_client/src/common/session.js:63-65 | playing becomes false |
| Search.Session.ClearBoard | ai_client/src/common/session.js:73-79 | every cell of the grid becomes 0 |
| SearchProofs.AlphaBetaRestores | ai_client/src/common/session.js:128-133 | with a lawful visitor, the search leaves the session state as it found it |
| SearchProofs.ScanRestores | ai_client/src/common/session.js:107-165 | the candidate loop leaves the state as it found it |
| SearchProofs.MinimaxNotNaN | ai_client/src/common/session.js:85-168 | if the evaluation is never NaN, minimax is never NaN |
| SearchProofs.MinimaxScanNotNaN | ai_client/src/common/session.js:107-165 | the minimax loop never produces NaN |
| SearchProofs.MinimaxScanBeyond | ai_client/src/common/session.js:135-155 | with a NaN-free evaluation and no terminal candidate, a max loop never lowers its running value, and a min loop never raises it |
| SearchProofs.AlphaBetaSound | ai_client/src/common/session.js:85-168 | for a lawful visitor whose evaluation is never NaN and with no terminal candidate, alpha-beta is fail-soft: inside (alpha, beta) it equals minimax; at or below alpha (or at or above beta) it bounds minimax from that side |
| SearchProofs.ScanSound | ai_client/src/common/session.js:107-165 | under the same two hypotheses, the candidate loop keeps the fail-soft relation with the minimax loop, cutoffs included |
| SearchProofs.FinishAgrees | ai_client/src/common/session.js:166-167 | a loop that runs out of candidates returns a fail-soft value |
| SearchProofs.CutoffAgrees | ai_client/src/common/session.js:161-164 | a beta <= alpha cutoff still returns a fail-soft value |
| SearchProofs.StepAgrees | ai_client/src/common/session.js:135-155 | absorbing a fail-soft child value keeps the loop in agreement with minimax |
| SearchProofs.TerminalBreaksFailSoft | ai_client/src/common/session.js:120-164 | a lawful, NaN-free visitor with a child valued above WIN followed by a terminal candidate: under (0, WIN) alpha-beta cuts off at 2·WIN while minimax goes on to the terminal candidate and gives WIN, so fail-soft fails without the no-terminal hypothesis |
| SearchProofs.AlphaBetaFullWindow | ai_client/src/common/session.js:85-168 | under the same two hypotheses, on the window (-Infinity, +Infinity) alpha-beta returns exactly the minimax value |
| SearchProofs.NoCandidateNull | ai_client/src/common/session.js:93-167 | a ply with no playable candidate returns the list [null], the list that makes getMove throw |
| SearchProofs.SkipAll | ai_client/src/common/session.js:107-119 | skipping every remaining candidate leaves the ply's running values as they are |
| SearchProofs.AlphaBetaPv | ai_client/src/common/session.js:93-167 | below the ply's own move, the returned move list is the list of the child searched last, not necessarily the best one |
| SearchProofs.ScanPv | ai_client/src/common/session.js:107-167 | the candidate loop keeps `prevMoves` equal to the latest child's list, on a cutoff, a terminal break and running out alike |
| SearchProofs.AlphaBetaBest | ai_client/src/common/session.js:119-167 | the value is never NaN; a terminal cut returns WIN/LOSS with a move; otherwise the value is the best among the tried children and the returned move attains it |
| SearchProofs.ScanBest | ai_client/src/common/session.js:107-165 | the candidate loop keeps "the value is the best tried, and the move attains it" |
| SearchProofs.AbsorbBest | ai_client/src/common/session.js:135-155 | one more child keeps that invariant |
| SearchProofs.AlphaBetaTrials | ai_client/src/common/session.js:129-131 | every child was searched with a window inside the parent's, at depth - 1 and with the turn flipped |
| SearchProofs.ScanTrials | ai_client/src/common/session.js:107-165 | the loop only narrows the window it hands to children |
| AgentSessions.Fresh | ai_client/src/agent/session.js:9-14 | the two new agents' indexes are exact: every cell keyed, and the trees hold the empty cells |
| AgentSessions.EmptyCellsAfterWrite | ai_client/src/agent/agent.js:335-336 | placing a stone removes exactly that cell from the empty cells |
| AgentSessions.PlayedParts | ai_client/src/agent/session.js:76-84 | makeMove writes the piece, re-keys both agents' stars against the new board, drops the cell from both trees, and returns both logs |
| AgentSessions.PlayedIndexed | ai_client/src/agent/session.js:76-84 | makeMove keeps both indexes exact |
| AgentSessions.PlayedReverts | ai_client/src/agent/session.js:76-90 | revertMove with makeMove's memento restores board and both indexes exactly |
| AgentSessions.RekeyedStar | ai_client/src/agent/agent.js:329-383 | after the update, every empty star cell carries its fresh evaluateMove score and every other key is unchanged |
| AgentSessions.RowsFromShape | ai_client/src/agent/session.js:61-74 | the row-major list of cells holds each board cell exactly once |
| AgentSessions.InsertRankedSpec | ai_client/src/agent/session.js:61-74 | inserting into a key-descending list adds exactly the node, keeps keys descending and keeps nodes distinct |
| AgentSessions.InsertRankedMembers | ai_client/src/agent/session.js:61-74 | insertion adds exactly the new node |
| AgentSessions.InsertRankedOrder | ai_client/src/agent/session.js:61-74 | insertion keeps keys non-increasing |
| AgentSessions.InsertRankedDistinct | ai_client/src/agent/session.js:61-74 | inserting an absent node keeps the nodes distinct |
| AgentSessions.RankOfSpec | ai_client/src/agent/session.js:61-74 | ranking a distinct list yields exactly its tree members, distinct and key-descending |
| AgentSessions.RankedSpec | ai_client/src/agent/session.js:61-74 | the reverse iteration yields exactly the tree's board cells, each once, keys non-increasing |
| AgentSessions.GridSumOccupiedOnly | ai_client/src/agent/session.js:92-104 | evaluateBoard depends only on the keys of occupied cells (own keys for own stones, the other agent's for the opponent's) |
| AgentSessions.RowSumOccupiedOnly | ai_client/src/agent/session.js:94-101 | the same, for one row |
| AgentSessions.GridSumEmpty | ai_client/src/agent/session.js:92-104 | an empty board evaluates to 0 |
| AgentSessions.RowSumEmpty | ai_client/src/agent/session.js:94-101 | an empty row adds 0 |
| AgentSessions.AgentVisitor | ai_client/src/agent/session.js:15-22 | the registered methods: isTerminalNode is always false, never early-reject, getMoveRC is the cell, the evaluation is a finite number, the order is the ranked tree, and makeMove/revertMove are `Played`/`Reverted` on in-range cells |
| AgentSessions.PlayedLawful | ai_client/src/agent/session.js:76-90 | on an empty cell, makeMove keeps the index exact and revertMove undoes it |
| AgentSessions.AgentVisitorMove | ai_client/src/agent/session.js:76-90 | the visitor's make/revert pair restores the state and keeps it indexed |
| AgentSessions.AgentVisitorLawful | ai_client/src/agent/session.js:76-90 | the agent visitor is lawful for the "indexes exact" invariant |
| AgentSessions.AgentSearchSound | ai_client/src/agent/session.js:8-23 | the agent session's search restores its state, is fail-soft against minimax, and is exact on the full window |
| AgentSessions.WrittenOnlyStale | ai_client/src/agent/session.js:25-32 | as written, updateAfterMove leaves the index stale: the occupied cell is still in both move trees |
| AgentSessions.AgentSession.constructor | ai_client/src/agent/session.js:9-23 | board shared by both agents; the opponent agent plays own.otherPlayer; state `Fresh`; playing at depth 5 |
| AgentSessions.AgentSession.UpdateAfterMove | ai_client/src/agent/session.js:25-32 | as written: the board write happens, then the call throws before any index update |
| AgentSessions.AgentSession.ApplyExternalMove | ai_client/src/agent/session.js:25-32 | as intended: the board and both indexes update as for makeMove, and the index stays exact |
| AgentSessions.AgentSession.StopPlaying | ai_client/src/agent/session.js:34-38 | the session stops playing |
| AgentSessions.AgentSession.GetAgentMoveScores | ai_client/src/agent/session.js:40-50 | the returned grid holds every cell's node key |
| AgentSessions.AgentSession.GetMoveConsiderationOrder | ai_client/src/agent/session.js:61-74 | a max node gets the own tree and a min node the other tree, each from the highest key down: exactly the tree's members, each once, keys non-increasing |
| AgentSessions.AgentSession.MakeMove | ai_client/src/agent/session.js:76-84 | a max node places own.player and a min node own.otherPlayer; the state and memento are `Played`, and the index stays exact |
| AgentSessions.AgentSession.Place | ai_client/src/agent/session.js:76-84 | placing any player's piece updates board and both indexes as `Played` |
| AgentSessions.AgentSession.PlaceSteps | ai_client/src/agent/session.js:77-79 | the write, then each agent's update in turn, against the new board |
| AgentSessions.AgentSession.UpdateAgent | ai_client/src/agent/session.js:78-79 | one agent's update leaves the other agent untouched |
| AgentSessions.AgentSession.RevertMove | ai_client/src/agent/session.js:86-90 | the cell becomes EMPTY and both agents revert their logs: the state is `Reverted` |
| AgentSessions.AgentSession.EvaluateBoard | ai_client/src/agent/session.js:92-104 | the loops add own keys of own stones and subtract the other agent's keys of its stones: `Evaluate` |
| AgentSessions.AgentSession.GetMove | ai_client/src/common/session.js:48-61 | the agent session's getMove throws exactly on a `null` variation entry (getMoveRC reads `r` off it, ai_client/src/agent/session.js:53-55), and otherwise returns the last principal-variation move |
| StateSessions.PieceDecay | ai_client/src/state/session.js:33-36 | PIECE_DECAY to the power k lies in (0, 1] |
| StateSessions.PieceDecayDecreasing | ai_client/src/state/session.js:33-36 | higher powers of the decay are strictly smaller |
| StateSessions.PieceShape | ai_client/src/state/session.js:31-36 | PIECE is positive and strictly decreasing with distance up to PIECE_BASE, and NaN exactly past its 30 entries |
| StateSessions.ConnectTables | ai_client/src/state/session.js:21-22 | OWN and OTHER start at 0, are mirror images up to 4, are WIN/LOSS from 5, and are undefined (NaN) past 10 and 9 respectively |
| StateSessions.BuildPieceTable | ai_client/src/state/session.js:31-36 | the table loop produces PIECE_MAX entries equal to `Piece(d)` |
| StateSessions.Mark | ai_client/src/state/session.js:60-63 | marking a neighbour keeps the frontier invariant and queues it exactly when it was unvisited |
| StateSessions.KingCells | ai_client/src/state/session.js:57-105 | the eight cells checked are the eight at king distance 1 |
| StateSessions.KingCellsExact | ai_client/src/state/session.js:57-105 | every cell at king distance 1 is among them |
| StateSessions.Expand | ai_client/src/state/session.js:57-105 | exploring one cell queues every unvisited neighbour, keeping the frontier invariant |
| StateSessions.NeighboursCovered | ai_client/src/state/session.js:57-105 | after the eight checks, every on-board neighbour is visited or queued |
| StateSessions.BreadthFirstSearch | ai_client/src/state/session.js:38-110 | the search visits every board cell exactly once, in non-decreasing king distance from the start, each with its layer equal to that distance |
| StateSessions.ExploreLayer | ai_client/src/state/session.js:54-106 | one layer visits its cells in order and queues every neighbour of theirs that was not already visited |
| StateSessions.NextLayer | ai_client/src/state/session.js:107-108 | the queued cells are exactly the cells one layer further out |
| StateSessions.VisitsGrow | ai_client/src/state/session.js:107-108 | after a layer, the visits cover every cell closer than the next layer, in layer order, each once |
| StateSessions.VisitsGrowLayers | ai_client/src/state/session.js:56 | every visit's layer is its cell's distance |
| StateSessions.VisitsGrowOrder | ai_client/src/state/session.js:52-108 | visits are distinct and their layers non-decreasing |
| StateSessions.VisitsGrowCover | ai_client/src/state/session.js:52-108 | every cell nearer than the layer reached has been visited |
| StateSessions.AllRecorded | ai_client/src/state/session.js:52 | when the frontier is empty, every board cell has been visited |
| StateSessions.EmptyAmongSpec | ai_client/src/state/session.js:123-127 | the callback keeps exactly the empty cells, preserving distinctness and outward order |
| StateSessions.CenterMoves | ai_client/src/state/session.js:120-127 | the move order is exactly the empty cells, each once, spiralling outward from the centre |
| StateSessions.LineCell | ai_client/src/state/session.js:182-236 | every cell the scan loops read is on the board |
| StateSessions.LinesPartition | ai_client/src/state/session.js:182-236 | each cell lies on exactly one line of each direction (one row, one column, one forward and one backward diagonal), at a unique position |
| StateSessions.CenterNear | ai_client/src/state/session.js:122 | every cell is within n - 1 of the centre, so BFS layers stay below n |
| StateSessions.PlacementFinite | ai_client/src/state/session.js:148-156 | on boards up to 30 a side, the placement score is a finite number |
| StateSessions.LineScanBounded | ai_client/src/state/session.js:168-187 | on boards up to 9 a side, a line's runs never outgrow the cells read, and the score stays finite |
| StateSessions.FamilyScanFinite | ai_client/src/state/session.js:182-236 | a family of lines leaves no run in progress and a finite score |
| StateSessions.ClearBounded | ai_client/src/state/session.js:161-166 | clearing runs of at most 9 keeps the score finite and resets both runs |
| StateSessions.FamilyTallyFinite | ai_client/src/state/session.js:182-236 | a family followed by its extra clearConnections stays finite |
| StateSessions.EvaluationFinite | ai_client/src/state/session.js:145-240 | on boards up to 9 a side evaluateBoard is never NaN |
| StateSessions.PlacementEmpty | ai_client/src/state/session.js:148-156 | an empty board's placement score is 0 |
| StateSessions.ClearIdle | ai_client/src/state/session.js:161-166 | clearConnections with no runs changes nothing |
| StateSessions.LineScanEmpty | ai_client/src/state/session.js:168-180 | scanning empty cells with no runs changes nothing |
| StateSessions.FamilyScanEmpty | ai_client/src/state/session.js:182-236 | the same for a whole family |
| StateSessions.FamilyTallyEmpty | ai_client/src/state/session.js:182-236 | the same with the closing clearConnections |
| StateSessions.EvaluationEmpty | ai_client/src/state/session.js:145-240 | an empty board evaluates to 0 |
| StateSessions.NeighbourCells | ai_client/src/state/session.js:284-318 | every yielded cell is an on-board king neighbour |
| StateSessions.NorthCells | ai_client/src/state/session.js:286-293 | the N/NW part yields on-board neighbours |
| StateSessions.WestCells | ai_client/src/state/session.js:294-301 | the W/SW part yields on-board neighbours |
| StateSessions.SouthCells | ai_client/src/state/session.js:302-309 | the S/SE part yields on-board neighbours |
| StateSessions.EastCells | ai_client/src/state/session.js:310-317 | the E/NE part yields on-board neighbours |
| StateSessions.NeighbourPieces | ai_client/src/state/session.js:284-318 | one piece per neighbour cell |
| StateSessions.NeighbourCellsExact | ai_client/src/state/session.js:284-318 | the generator yields exactly the on-board king neighbours, each once |
| StateSessions.EarlyRejectsExact | ai_client/src/state/session.js:263-280 | a move is rejected exactly when below the top ply and all its neighbours are empty |
| StateSessions.StateVisitor | ai_client/src/state/session.js:134-142 | the registered methods: never terminal, the fixed centre-out order, the cell as move, early rejection as `EarlyRejects`, make/revert as board writes |
| StateSessions.StateVisitorLawful | ai_client/src/state/session.js:255-261 | revertMove undoes makeMove on empty cells, so the visitor is lawful |
| StateSessions.StateVisitorNeverNaN | ai_client/src/state/session.js:145-240 | on boards up to 9 a side the evaluation is never NaN |
| StateSessions.StateFullBoardNull | ai_client/src/state/session.js:242-261 | with no empty cell left, the state session's search returns a list holding `null`, so its getMove throws |
| StateSessions.StateSearchRestores | ai_client/src/state/session.js:113-143 | on a board of any size, the state session's search leaves the board as it found it |
| StateSessions.StateSearchSound | ai_client/src/state/session.js:113-143 | on boards up to 9 a side, where the evaluation is never NaN, the state session's search is fail-soft against minimax, and exact on the full window |
| StateSessions.CenterOrder | ai_client/src/state/session.js:120-127 | the constructor's first search collects exactly the empty cells, each once, spiralling outward from the centre |
| StateSessions.BuildRawScores | ai_client/src/state/session.js:128-133 | every cell's raw score is PIECE of its layer, its king distance from the centre |
| StateSessions.PlacementSum | ai_client/src/state/session.js:148-156 | the placement loops return `Placement` of the whole board |
| StateSessions.ScanFamily | ai_client/src/state/session.js:182-189 | one family of loops, with its closing clearConnections, returns `FamilyTally` |
| StateSessions.ScanLine | ai_client/src/state/session.js:183-187 | one line's inner loop and clearConnections advance `FamilyScan` by one line |
| StateSessions.NoneOccupied | ai_client/src/state/session.js:270-276 | the loop answers "no neighbours" exactly when every piece is EMPTY |
| StateSessions.StateSession.constructor | ai_client/src/state/session.js:114-143 | the move order holds exactly the empty cells, and the session plays at depth 5 |
| StateSessions.StateSession.EvaluateBoard | ai_client/src/state/session.js:145-240 | the method returns `Evaluation` of the board |
| StateSessions.StateSession.GetMoveConsiderationOrder | ai_client/src/state/session.js:242-244 | the stored centre-out order, each cell once |
| StateSessions.StateSession.MakeMove | ai_client/src/state/session.js:255-257 | writes player on a max node and otherPlayer on a min node |
| StateSessions.StateSession.RevertMove | ai_client/src/state/session.js:259-261 | writes EMPTY |
| StateSessions.StateSession.EarlyRejectHeuristic | ai_client/src/state/session.js:263-280 | rejects exactly when not at the top ply and no neighbour is occupied |
| StateSessions.StateSession.GetMove | ai_client/src/common/session.js:48-61 | the state session's getMove throws exactly on a `null` variation entry (destructuring the `null` getMoveRC passes through), and otherwise returns the last principal-variation move |

## Left out

- Logging, `console.log`, `printStats` and the search statistics: output only. The one exception is getMove's logging loop, which calls getMoveRC on every move of the principal variation. It is modelled by the `thrown` result of the GetMove methods, because it throws on a `null` entry.
- The score-board write in minimaxAB: a diagnostic the search never reads. The score board is created zeroed, as in the constructor.
- `Agent.stopPlaying` (clearing the tree and node map to null): the model keeps the index. AgentSession.StopPlaying models only the session flag.
- The treap behind `moveScores`. The model uses a set of cells plus a map of keys. Among equal keys, the model's reverse iteration uses row-major order. The source's order among equal keys depends on random treap priorities; the contracts fix only membership, distinctness and non-increasing keys.
- The search works on values: each make/revert pair is threaded through a state value. The session classes' MakeMove and RevertMove are proved to match the visitor's functions.
- The sessions' inheritance from `Session` is modelled by composition: the session object owns a `Search.Session`.
- `WIN` and `LOSS` come from a defines module that is not part of this model. The stand-ins are WIN = 100000 and LOSS = -100000. The contracts named in the next four lines rely on WIN > 240 and LOSS < -10, and are not promised for values outside those bounds.
- AgentEval.LinkScore: "WIN exactly with LINK_MAX links" needs WIN above LINK_4_BOTH = 20, the largest non-winning linking score.
- AgentEval.AxisScore: "at least WIN exactly with LINK_MAX links" needs WIN above the largest non-winning axis score, LINK_4_BOTH + BLOCK_MORE_THAN_4 = 60.
- AgentEval.MoveScoreWinning: needs WIN above the largest non-winning move score, 4 · 60 = 240.
- StateSessions.ConnectTables: "OWN[k] < WIN and LOSS < OTHER[k] for k <= 4" needs WIN > 10 and LOSS < -10.
- `Agent.WIN` is undefined in the source, so the agent session's isTerminalNode is always false. The model keeps this.
- JavaScript's binary floating point is not modelled: scores are exact reals. Only NaN and the infinities are modelled.
- The breadth-first search's `op` callback is modelled as the returned sequence of visits (cell and layer). Each callback is a function of that sequence.
- The eight unrolled neighbour checks of the breadth-first search are one loop over the eight directions, in the source's order.
- StateSessions.EvaluationFinite: NaN-freedom is proved only for boards up to 9 a side. On larger boards a run of 10 opponent stones reads past the OTHER table.
- StateSessions.StateSession.constructor: requires a board of at least one cell. On an empty board the source's search indexes a row that does not exist.
- StateSessions.ScanFamily: requires n >= 1. The constructor already ensures this.
- Agents.Agent.UpdateMoveScoresAfterMove: keys more than UPDATE_DIST (4) cells away from a move are not refreshed, exactly as in the source. The index's keys are exact only within that distance.
- The websocket server, the HTTP server and the client's message plumbing are not part of this model.
- Agents.Agent.constructor: requires a side of at most SPACE_MAX (30). On a wider board the source still builds the index, and some keys are NaN (AgentEval.WideBoardNaN); the move tree's order under NaN keys is not modelled.
- AgentSessions.AgentSession.constructor: requires a side of at most SPACE_MAX (30), for the same reason as the Agent constructor.
- AlphaBetaSound: the fail-soft relation is proved only for visitors whose evaluation is never NaN and that have no terminal candidate. Both sessions of the client meet this, the state session for boards up to 9 a side. With a terminal candidate the relation can fail (SearchProofs.TerminalBreaksFailSoft).
- ScanSound: carries the same two hypotheses as AlphaBetaSound.
- AlphaBetaFullWindow: carries the same two hypotheses as AlphaBetaSound.
- MinimaxScanBeyond: carries the same two hypotheses; a terminal candidate resets a max loop to WIN, which can be below its running value.
- StateSessions.StateSearchSound: stated for boards up to 9 a side, where the evaluation is proved NaN-free. On larger boards only restoration is stated (StateSessions.StateSearchRestores).
- Search.Session.SetDifficulty: takes a natural number. The source stores `Number(difficulty)` of a command-line string: a non-numeric string gives NaN, and the root then returns the evaluation with no move; a fractional or negative depth never reaches 0, and the search does not end. Neither case is modelled.

## Findings

| source | as written | input that shows it | evidently intended | confidence | as-written member | corrected member |
|---|---|---|---|---|---|---|
| ai_client/src/agent/session.js:30-31 | `updateAfterMove` calls `updateMoveScoresAfterMove` on the agent's move tree (`this.own.moveScores`), which has no such method | any reported move, e.g. `updateAfterMove({r: 0, c: 0}, 1)` on a fresh session: the board write happens, then the call throws and both move trees still hold (0, 0) | call the agents' own `updateMoveScoresAfterMove(r, c)`, so both indexes follow the board | not executed | AgentSessions.AgentSession.UpdateAfterMove, AgentSessions.WrittenOnlyStale | AgentSessions.AgentSession.ApplyExternalMove |
