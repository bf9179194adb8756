# Peg solitaire on a square board: a verified model

heuristic-pegboard-solver plays peg solitaire on an n×n board. A board state
is a non-negative integer. Its binary expansion, zero-padded to n·n digits,
says which cells hold a peg. A move `[jumper, goner, newpos]` makes the peg at
`jumper` jump over the peg at `goner` and land on the empty cell `newpos`. The
three cells must lie next to each other on a row, a column or a diagonal. The
move removes the peg at `goner`. Five functions search for a sequence of moves
that leaves one peg:

- `dfs`, a depth-first search;
- `astar1`, `astar2` and `astar3`, three copies of one A* search that differ
  only in the heuristic they call;
- `flailWildly`, a random walk that never backtracks.

This project models those procedures and the board they work on, and proves
what they promise:

- `bits.dfy` (module `Bits`) models Python's `bin`, `int(s, 2)`, `zfill`,
  `str.count` and `str.find` on binary strings, and relates them to the
  integer's bits.
- `pegboard.dfy` (module `Pegboard`) models `State` and `Action`:
  - the constructor;
  - the two goal tests;
  - the move precondition, with its geometry;
  - `applyState`, both as integer arithmetic and as a bit-string update.
- `enumerator.dfy` (module `Enumerator`) models `applicableActions`: the
  triple loop, and the list it builds, which is exactly the legal moves in
  lexicographic order.
- `paths.dfy` (module `Paths`) defines search paths, meaning lists of
  (action, state) pairs that follow legal moves. It proves:
  - every path to a state has the same length;
  - a set closed under moves covers every path.
- `heuristics.dfy` (module `Heuristics`) models `heuristic1`, `heuristic2` and
  `heuristic3`.
- `dfs.dfy` (module `DepthFirst`) models `dfs`.
- `astar.dfy` (module `BestFirst`) models `astar1`, `astar2` and `astar3` as
  one search, parameterised by the heuristic.
- `walk.dfy` (module `RandomWalk`) models `flailWildly`.

There are two index schemes. Move indices are bit positions counted from the
least significant bit: the precondition reverses the digit list, and
`applyState` adds and subtracts 2^index. So cell p is string index n·n−1−p.
`initial_empty`, `goal` and `heuristic2` use string indices. `MirrorIsRotation`
and `RotationKeepsJumpLines` show that the map between the two schemes is the
180-degree rotation of the grid, which keeps every jump line a jump line.

Python's `State` has no `__eq__` or `__hash__`, so A* keys `prevNode` and
`prevAct` by object identity. The model keys them by the state integer, as it
does `g_n`, `f_n` and `open_nodes_states`. `FirstDiscoveryOnly` shows that
this changes nothing:

- every move removes one peg;
- so g_n of a discovered state is popcount(root) − popcount(state);
- so the update test fires only on the first discovery of a state, and
  `Relax` leaves the search unchanged for a successor already discovered;
- so every discovered state other than root is linked once, at its first
  discovery, and root is never linked;
- pushes also happen only at a first discovery (root's before the loop), and
  `Counted` keeps the counter equal to the number of discovered states, so
  every discovered state was pushed exactly once.

## Model

| member | source | states |
|---|---|---|
| Bits.Value | heuristics.py:476 | int(s, 2): the number a binary string denotes, most significant digit first; `Canonical`, `ZFillFacts` and `DigitIsBit` give its meaning |
| Bits.ZFill | classes.py:27 | str.zfill: the string left-padded with '0' to the width, unchanged when it is already that long; `ZFillPads` and `ZFillFacts` give its meaning |
| Bits.Count | classes.py:52 | str.count of one character; `CountIsPopCount` gives its meaning for '1' |
| Bits.ToBinary | classes.py:17 | bin(x)[2:] is a binary string that denotes x, it starts with '1' exactly when x > 0, and it is "0" for x = 0 |
| Bits.Find | classes.py:30 | find returns -1 exactly when the character is absent; otherwise it returns the index of its first occurrence |
| Bits.ZFillPads | classes.py:27 | zfill to a width at least the length puts exactly width − length zeros in front |
| Bits.ZFillFacts | classes.py:27 | zfill keeps a binary string binary and keeps its value; it pads to the requested width when the string is shorter |
| Bits.Canonical | classes.py:137-139 | zero-padding bin(int(s, 2)) to the width of s gives back s |
| Bits.ValueBound | classes.py:20-27 | a binary string of length L denotes a number below 2^L |
| Bits.ToBinaryLength | classes.py:137-139 | bin writes a number below 2^L with at most L digits, so zfill to n·n never truncates |
| Bits.ThreeDigits | classes.py:134-135 | clearing the jumper and goner digits and setting the newpos digit changes the value by 2^newpos − 2^jumper − 2^goner |
| Bits.ThreeDigitsCount | classes.py:131-139 | that three-digit update keeps the string binary and removes exactly one '1' |
| Bits.CountIsPopCount | heuristics.py:476 | the '1' digits of a binary string are the one bits of its value |
| Bits.DigitIsBit | classes.py:155-158 | the digit at string index \|s\|−1−i is bit i of the value |
| Pegboard.FloorSqrt | classes.py:20 | int(len ** 0.5) is the integer square root: r·r ≤ len < (r+1)·(r+1) |
| Pegboard.CorrectedSide | classes.py:20-24 | adding one when the square falls short gives the least n with n·n ≥ len |
| Pegboard.NewState | classes.py:6-30 | the constructor gives a valid state of the seed; n·n holds bin(seed) but (n−1)·(n−1) does not; binary_val is bin(seed) zero-filled to n·n digits; initial_empty is the first '0', or None when there is none |
| Pegboard.GoalRemaining | classes.py:45-52 | goal_remaining: binary_val holds exactly one '1'; `PegsIsPopCount` makes that one peg |
| Pegboard.Goal | classes.py:54-61 | goal: one '1', and find('1') equals initial_empty; `GoalIff` and `OnlyOneFound` give its meaning |
| Pegboard.GoalIff | classes.py:45-61 | goal holds exactly when goal_remaining holds and the one peg stands on initial_empty; so it implies goal_remaining and is false without an initial empty cell |
| Pegboard.OnlyOneFound | classes.py:61 | in a string with one '1', find('1') is that position |
| Pegboard.Occupancy | classes.py:155 | the 0/1 list of binary_val, one entry per digit; `OccupancyIsOccupied` shows that entry p of the reversed list is 1 exactly when position p holds a peg |
| Pegboard.Precondition | classes.py:144-190 | precondition: the three occupancy tests on the reversed list, then the row, column and diagonal tests on divmod positions; `LegalIsJumpLine` gives its meaning |
| Pegboard.LegalIsJumpLine | classes.py:144-189 | a triple of cells is legal exactly when the three cells are distinct, jumper and goner hold pegs, newpos is empty, goner is one of the eight neighbours of jumper, and newpos continues the line (2·goner − jumper by row and by column) |
| Pegboard.OccupancyIsOccupied | classes.py:155-158 | entry p of the reversed xo_list is 1 exactly when bit position p holds a peg |
| Pegboard.OccupiedIsBit | classes.py:155-162 | the reversed occupancy list reads bit position p as the bit of weight 2^p |
| Pegboard.MirrorIsRotation | classes.py:158 | the reversal maps row and column of a cell to n−1−row and n−1−col |
| Pegboard.RotationKeepsJumpLines | classes.py:165-188 | the geometry test gives the same answer in either index scheme |
| Pegboard.LegalNeedsTwoPegs | classes.py:161-162 | a legal move needs two pegs on the board |
| Pegboard.Jump | classes.py:131-139 | the successor is a valid state with the same n and initial_empty, and one peg fewer |
| Pegboard.JumpArithmetic | classes.py:134-135 | the successor's integer is state + 2^newpos − 2^jumper − 2^goner |
| Pegboard.JumpCells | classes.py:134-135 | only the three cells of the move change: jumper and goner empty, newpos filled |
| Pegboard.ApplyState | classes.py:120-142 | the arithmetic, bin and zfill steps give exactly the bit-flipped successor |
| Pegboard.PegsIsPopCount | classes.py:52 | binary_val.count('1') is the popcount of the state integer |
| Enumerator.CandidateMembers | classes.py:79-85 | one (jumper, goner, newpos) is appended exactly when it is a legal move |
| Enumerator.LandingsFor | classes.py:76-85 | the innermost loop appends the legal triples of a fixed jumper and goner, in increasing newpos order |
| Enumerator.ApplicableActions | classes.py:63-87 | the triple loop returns the list LegalMoves |
| Enumerator.LegalMoves | classes.py:63-87 | the list the triple loop builds, as a function of the state; `LegalMovesExact`, `LegalMovesIncreasing` and `LegalMovesBound` give its meaning |
| Enumerator.LegalMovesExact | classes.py:74-87 | a triple is in that list exactly when it is a legal move |
| Enumerator.LegalMoveAt | classes.py:83-85 | every listed triple is legal |
| Enumerator.LegalMoveListed | classes.py:83-85 | every legal triple is listed |
| Enumerator.LegalMovesIncreasing | classes.py:74-87 | the list is strictly increasing in (jumper, goner, newpos) order, so it has no repeats |
| Enumerator.LegalMovesBound | classes.py:74-76 | the list has at most (n·n)^3 entries |
| Enumerator.NoMovesOnSmallBoards | classes.py:74-87 | on a board of side at most 2 the list is empty |
| Paths.Reverse | heuristics.py:225 | list.reverse keeps the length; ReverseSnoc gives its behaviour on a longer list |
| Paths.ReverseSnoc | heuristics.py:225 | reversing a list with one more element at the end puts that element in front |
| Paths.ChainLength | classes.py:134-135 | a path of L legal moves ends, on the same board, at its last recorded state, with L fewer pegs |
| Paths.ChainExtend | heuristics.py:92 | path + [(currAct, newState)] is a path to the successor |
| Paths.ChainPrepend | heuristics.py:213-222 | putting a legal move in front of a path gives a path from its source |
| Paths.KeyDeterminesState | classes.py:137-139 | on one board a state is determined by its integer, which is why the searches may key by .state |
| Paths.JumpSameBoard | classes.py:131-139 | a legal move keeps a state on its board |
| Paths.PathsToOneStateAgree | heuristics.py:265-266 | every path from root to a state has length popcount(root) − popcount(state) |
| Paths.ClosedCoversPaths | heuristics.py:32-95 | a set of integers that holds the start and the successors of its own states holds every state a path reaches |
| Paths.FullBoardNeverGoal | classes.py:30 | with no initial empty cell, no reachable state is a goal |
| Paths.SeedIsNotGoal | classes.py:30 | a state fresh from the constructor is never a goal: its initial empty cell is empty |
| Paths.SuccessorKeysComplete | heuristics.py:77 | the loop over applicableActions meets the successor of every legal move |
| Heuristics.LegalSet | heuristics.py:120 | a triple is in the set exactly when it is a legal move |
| Heuristics.Heuristic1 | heuristics.py:110-120 | heuristic1 is the number of distinct legal moves; it is zero exactly when no move is legal |
| Heuristics.Heuristic2 | heuristics.py:122-154 | the loop returns 0 without an initial empty cell, and otherwise the sum of the Manhattan distances of the pegs to it |
| Heuristics.ManhattanTotal | heuristics.py:122-154 | 0 without an initial empty cell, otherwise the sum over the pegs of their Manhattan distance to it; `ManhattanZero` and `DistanceSumZero` give its meaning |
| Heuristics.DistinctCard | classes.py:74-87 | a strictly increasing move list has as many entries as distinct moves |
| Heuristics.DistanceSumZero | heuristics.py:143-154 | the distance sum is zero exactly when every peg stands on the target cell |
| Heuristics.ManhattanZero | heuristics.py:133-154 | heuristic2 is zero exactly when there is no initial empty cell or every peg stands on it |
| Heuristics.GoalHasNoDistance | heuristics.py:133-154 | heuristic2 is zero at a goal |
| Heuristics.Heuristic3 | heuristics.py:462-479 | heuristic3 is 3 · popcount(state) + heuristic2 |
| Heuristics.PegCountRoundTrip | heuristics.py:476 | bin(int(binary_val, 2)).count('1') is the number of pegs: the round trip drops only leading zeros |
| Heuristics.GoalEstimate3 | heuristics.py:473-479 | heuristic3 is 3 at a goal |
| Heuristics.Heuristic | heuristics.py:173 | the value of the chosen heuristic, as astar1, astar2 or astar3 computes it |
| DepthFirst.Dfs | heuristics.py:9-108 | a reported solution (Solution) starts with (None, root), follows legal moves to a goal and has popcount(root) pairs; a failure means no path from root reaches a goal; the closed set at the end has at most nodes + 1 integers; it holds root and the goal on success, and every integer reachable from root on failure, so on failure nodes + 1 is at least the number of reachable states |
| DepthFirst.GoalEntryIsSolution | heuristics.py:41-74 | a stack entry whose state passes the goal test carries a path that is a solution |
| DepthFirst.CloseNonGoal | heuristics.py:35-41 | adding the integer of a popped state that is not a goal keeps the closed set free of goals |
| DepthFirst.Expanded | heuristics.py:35-95 | once the popped state is closed and its successors are closed or on the stack, every successor of a closed state is closed or on the stack |
| DepthFirst.PopEntry | heuristics.py:35 | popping a stack of well-formed entries leaves well-formed entries and a lighter stack |
| DepthFirst.PushEntry | heuristics.py:95 | appending a well-formed entry keeps every stack entry well-formed |
| DepthFirst.PushSuccessors | heuristics.py:77-95 | after the loop the stack is the old stack with `Pushes` on top, and nodes grows by their number; every entry is a well-formed (state, path); the integer of every successor of the popped state is closed or on the stack |
| DepthFirst.Pushes | heuristics.py:77-95 | for each applicable action in order, the successor with its path extended by the move, when the successor's integer is not closed; `PushesAreOpenSuccessors` gives its meaning |
| DepthFirst.PushesAreOpenSuccessors | heuristics.py:77-95 | an entry is pushed exactly when it is the extended entry of an applicable action whose successor's integer is not closed |
| DepthFirst.PushesStep | heuristics.py:86-95 | pushing or skipping the i-th successor turns the first i pushes into the first i + 1 |
| DepthFirst.Turn | heuristics.py:77-95 | one pass of the loop over the actions takes the loop's invariant (the old stack with the first i pushes on top, each counted, every entry well formed, the first i successor integers closed or on the stack) from the i-th action to the next |
| DepthFirst.TurnsStart | heuristics.py:77 | before the first action nothing is pushed, so the loop invariant holds with the old stack |
| DepthFirst.TurnsDone | heuristics.py:77-95 | after the last action the stack is the old stack with all pushes on top, each counted, every successor integer closed or on the stack, and the stack's weight grown by less than base^(pegs of the popped state) |
| DepthFirst.TurnKept | heuristics.py:83-95 | pushing or skipping the successor of the i-th action puts the first i + 1 pushes on the old stack, keeps every entry well-formed, keeps the stack's earlier integers, and puts the successor's integer in the closed set or on the stack |
| DepthFirst.PushedOrSkipped | heuristics.py:86-95 | after the membership test the successor's integer is closed or on the stack, and no integer leaves the stack |
| DepthFirst.PushIfOpen | heuristics.py:83-95 | a successor whose integer is closed is skipped; otherwise it is pushed with the extended path and counted |
| DepthFirst.PushedEntry | heuristics.py:86-95 | from the new stack alone: every entry stays well-formed, the successor's integer is closed or on the stack, no integer leaves the stack, and the stack weighs at most base^(pegs of the successor) more |
| DepthFirst.ExtendEntry | heuristics.py:92-95 | extending a stack entry's path by a legal move gives the successor's entry |
| DepthFirst.CloseOne | heuristics.py:37 | adding the popped integer to the closed set grows it by at most one, so the closed set never outgrows the number of pops |
| DepthFirst.ClosedSearchIsComplete | heuristics.py:32-108 | when the stack empties, the closed set is closed under moves and holds no goal, so it holds the integer of every state reachable from root and no goal is reachable |
| BestFirst.MinIndex | heuristics.py:198 | heappop takes an entry with the least (f, counter) |
| BestFirst.AStar | heuristics.py:156-307 | a reported path runs from root by legal moves to a goal, with popcount(root) − 1 moves; a failure means every reachable state was discovered and none is a goal; nodes is one less than the number of discovered states |
| BestFirst.Start | heuristics.py:170-189 | before the loop the search invariant holds |
| BestFirst.Pop | heuristics.py:198-201 | popping removes entry i from the queue and its integer from open_nodes_states, and keeps the invariant |
| BestFirst.Remove | heuristics.py:198-201 | removing one entry of a repeat-free queue removes exactly its integer, keeps the others in order and keeps the counters increasing |
| BestFirst.LeastIsUnique | heuristics.py:198 | with increasing counters no other entry ties with or precedes the one heappop takes, so the heap's internal order does not matter |
| BestFirst.Expand | heuristics.py:255-294 | after the loop over the actions the expanded state is discovered, out of the queue and closed (not a goal, every successor discovered); the invariant holds; the search extends the old one (`Extends`: g_n, f_n, prevNode and prevAct keep their old values, the old queue is a prefix, every new entry is a newly discovered state); the queue grew by the number of new discoveries |
| BestFirst.Close | heuristics.py:255-261 | once all successors are discovered the expanded state counts as closed |
| BestFirst.Relax | heuristics.py:257-294 | a successor already in g_n leaves every variable unchanged; a new one is linked, given g_n and f_n, and pushed |
| BestFirst.FirstDiscoveryOnly | heuristics.py:265-266 | the update test fires exactly when the successor has no g_n value |
| BestFirst.Relaxed | heuristics.py:265-294 | relaxing a successor keeps the invariant and adds the successor to g_n |
| BestFirst.Discovered | heuristics.py:270-294 | recording a new state keeps every part of the invariant |
| BestFirst.Improve | heuristics.py:270-294 | the body of the update test: link the new state to the expanded one and the move, set its g_n and f_n, and push it with the next counter unless it is open; `ImproveLinks`, `ImproveKeys`, `ImproveExtends` and `Discovered` give its meaning |
| BestFirst.ImproveExtends | heuristics.py:270-294 | discovering a new state leaves every old g_n, f_n and link as it was and appends at most one entry, for that state |
| BestFirst.RelaxExtends | heuristics.py:263-294 | relaxing a successor, discovered or not, extends the search |
| BestFirst.ImproveKeys | heuristics.py:270-291 | recording a new successor adds exactly its integer to g_n and one entry to the queue, and leaves the expanded state out of the queue |
| BestFirst.ImproveLinks | heuristics.py:270-276 | recording a new successor sets its g_n to the expanded state's plus one, its prevNode to the expanded state and its prevAct to the action, and changes no other key |
| BestFirst.CountedAfter | heuristics.py:286-294 | one counter value and one node per fresh push |
| BestFirst.RecordedAfter | heuristics.py:276 | the new g_n value is popcount(root) − popcount(state) |
| BestFirst.QueuedAfter | heuristics.py:279-291 | open_nodes_states stays the set of queued integers, and every entry's f is g_n + h |
| BestFirst.LinkedMaps | heuristics.py:270-276 | adding the link of a new state by a legal move from a discovered state, with g_n one more, keeps every link legal and g-decreasing |
| BestFirst.LinkedAfter | heuristics.py:270-273 | prevNode and prevAct stay defined on every discovered state but root, each by a legal move from a state with smaller g_n |
| BestFirst.Push | heuristics.py:286-291 | pushing a state not open adds exactly its integer and keeps the queue free of repeats |
| BestFirst.Reconstruct | heuristics.py:210-225 | following prevNode back from the goal and reversing gives a path from root to the goal |
| BestFirst.Back | heuristics.py:213-222 | the recorded link of a discovered state is a legal move that leads to it from a discovered state with smaller g_n |
| BestFirst.DiscoveredBound | heuristics.py:195 | at most 2^(n·n) states are discovered, which bounds the loop |
| BestFirst.ExpandedIsComplete | heuristics.py:195-307 | when the queue empties, every state reachable from root was discovered and none is a goal |
| RandomWalk.FlailWildly | main.py:12-61 | the walk is a path from the start; it succeeds only after at least one move, at a state with one peg; it fails only at a state without actions; no earlier state has one peg; the first move is the picked entry of applicableActions |
| RandomWalk.StuckFails | main.py:30-36 | without applicable actions the walk fails at once, with no move |
| RandomWalk.WalkLength | main.py:49-61 | the walk stops within popcount(start) − 1 moves, after exactly that many when it succeeds |
| RandomWalk.OnePegRootFails | main.py:46-58 | the start is never goal-tested, so a one-peg start ends in failure |

## Left out

- Printing, `time.time()` and the solution strings are left out, as are `State.__str__`, `Action.__str__` and the command line of main.py. A search returns `Solved(path, nodes)` or `Failed(nodes)` instead of printing.
- `int(len ** 0.5)` is a floating-point square root. The model uses the exact integer square root (`FloorSqrt`). The correction at classes.py:23-24 then gives the least side n. Floating-point rounding on very long strings is not modelled.
- The default argument `state=65023` of `State.__init__` (classes.py:6) is left out: `NewState` always takes the seed as an argument.
- Pegboard.NewState: the seed is a `nat`. For a negative integer, `bin` gives a string that starts with '-', the slice keeps a 'b', and the source does not handle it.
- Heuristics.Heuristic3 counts the '1's of `bin(x)` without its `0b` prefix. That prefix holds no '1', so the count is the same as in heuristics.py:476.
- `copy.deepcopy` is left out. States are immutable values, so a copy is the value itself.
- `heapq` and `itertools.count` are left out. The open list is a sequence of `(f, counter, state)` entries, and `MinIndex` picks the least `(f, counter)`. The heap's internal order is not modelled. The counters increase along the open list (`Ticketed`, part of the invariant), so no two entries tie on (f, counter), and `LeastIsUnique` shows that the entry taken does not depend on that order.
- `random.randint` is replaced by a list of picks that the caller supplies. `PicksFit` requires each pick to index the action list it is used on, as the range of randint guarantees.
- `prevNode` and `prevAct` are keyed by object identity in the source and by state integer in the model. `FirstDiscoveryOnly` shows that the two coincide.
- `g_n.get(newState.state, float('inf'))` is modelled as a missing key. The test then fires on a missing key.
- BestFirst.AStar: `f_n[s] = g_n[s] + h(s)` is stated for the states in the open list only, not for every discovered state. The expanded states' f values are never read again.
- BestFirst.AStar: `discovered` is stated to hold every state reachable from root when the search fails, and to number one more than `nodes`. That every discovered state is reachable is not stated. On success nothing constrains `discovered`, so `nodes` is not related to the states the search discovered.
- The A* loop body is split into `Pop`, `Expand` and `Relax`, and the dfs loop body into `PushSuccessors`, `Turn` and `PushIfOpen`, with the entries the loop pushes named by `Pushes`. Each part is a method with its own contract. The order of the statements inside the loops is kept.
- DepthFirst.Dfs: `nodes` is bounded only from below, by the size of the closed set (all reachable states on failure; root and the goal on success). That it equals the number of pushes is kept inside the loop as the invariant `nodes + 1 == |stack| + popped` and not exported.
- RandomWalk.FlailWildly returns the pairs it went through instead of printing them. Recursion on the successor stands for the tail call.
