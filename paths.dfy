/** Sequences of moves through the state space, shared by the searches: a
    search path is a list of (action, state) pairs in which every state is
    the result of a legal move from the state before it. */
module Paths {
  import opened Bits
  import opened Pegboard
  import opened Enumerator

  /** One (action, state) pair of a search path; the root pair has no action. */
  datatype Step = Step(action: Option<Move>, state: State)

  /** What a search reports in place of printing: the solution path and the
      node count, or failure and the node count. */
  datatype Outcome = Solved(path: seq<Step>, nodes: nat) | Failed(nodes: nat)

  /** Applying the moves of steps one after another, starting from `from`,
      is legal at every step, produces the recorded states, and ends at `to`. */
  predicate Chain(from: State, steps: seq<Step>, to: State)
    decreases |steps|
  {
    if steps == [] then from == to
    else
      && steps[0].action.Some?
      && Legal(from, steps[0].action.value)
      && steps[0].state == Jump(from, steps[0].action.value)
      && Chain(steps[0].state, steps[1..], to)
  }

  /** The state a path ends at (start when the path is empty). */
  function Final(start: State, steps: seq<Step>): State {
    if steps == [] then start else steps[|steps| - 1].state
  }

  /** s lives on the same board as root: the same side and the same
      initial empty cell. */
  predicate SameBoard(root: State, s: State) {
    Valid(s) && s.n == root.n && s.initialEmpty == root.initialEmpty
  }

  /** The state of root's board whose integer is k. */
  function Board(root: State, k: nat): State {
    State(k, ZFill(ToBinary(k), Cells(root)), root.n, root.initialEmpty)
  }

  /** list.reverse() */
  function Reverse(steps: seq<Step>): (r: seq<Step>)
    ensures |r| == |steps|
    decreases |steps|
  {
    if steps == [] then [] else [steps[|steps| - 1]] + Reverse(steps[..|steps| - 1])
  }

  /** Every move removes one peg, so a path of length L from s ends at a
      state with L fewer pegs, on the same board, and at the last recorded
      state. */
  lemma {:induction false} ChainLength(from: State, steps: seq<Step>, to: State)
    requires Valid(from) && Chain(from, steps, to)
    ensures SameBoard(from, to) && Pegs(to) + |steps| == Pegs(from)
    ensures to == Final(from, steps)
    decreases |steps|
  {
    if steps != [] {
      ChainLength(steps[0].state, steps[1..], to);
      if |steps| > 1 {
        assert steps[1..][|steps| - 2] == steps[|steps| - 1];
      }
    }
  }

  /** Appending to a non-empty path keeps its first pair and appends to
      its tail. */
  lemma AppendSplits(steps: seq<Step>, last: Step)
    requires steps != []
    ensures (steps + [last])[0] == steps[0] && (steps + [last])[1..] == steps[1..] + [last]
  {
    assert (steps + [last])[1..] == steps[1..] + [last];
  }

  /** Appending a legal move from the end of a path gives a path to the
      successor (newPath = path + [(currAct, newState)]). */
  lemma {:induction false} ChainExtend(from: State, steps: seq<Step>, mid: State, a: Move)
    requires Chain(from, steps, mid) && Legal(mid, a)
    ensures Chain(from, steps + [Step(Some(a), Jump(mid, a))], Jump(mid, a))
    decreases |steps|
  {
    if steps != [] {
      ChainExtend(steps[0].state, steps[1..], mid, a);
      AppendSplits(steps, Step(Some(a), Jump(mid, a)));
    } else {
      assert [Step(Some(a), Jump(mid, a))][1..] == [];
    }
  }

  /** Putting a legal move in front of a path. */
  lemma ChainPrepend(p: State, a: Move, steps: seq<Step>, to: State)
    requires Legal(p, a) && Chain(Jump(p, a), steps, to)
    ensures Chain(p, [Step(Some(a), Jump(p, a))] + steps, to)
  {
    assert ([Step(Some(a), Jump(p, a))] + steps)[1..] == steps;
  }

  /** Reversing a list with one more element at the end puts it in front. */
  lemma ReverseSnoc(steps: seq<Step>, x: Step)
    ensures Reverse(steps + [x]) == [x] + Reverse(steps)
  {
    assert (steps + [x])[..|steps|] == steps;
  }

  /** On one board a state is determined by its integer: the digit string
      is always the zero-padded binary expansion. */
  lemma KeyDeterminesState(root: State, s: State)
    requires SameBoard(root, s)
    ensures s == Board(root, s.state)
  {
    Canonical(s.binaryVal);
  }

  /** Every state on root's board, root included, is the board state of
      its integer. */
  lemma RootIsBoard(root: State)
    requires Valid(root)
    ensures SameBoard(root, root) && root == Board(root, root.state)
  {
    KeyDeterminesState(root, root);
  }

  /** A legal move keeps a state on its board. */
  lemma JumpSameBoard(root: State, s: State, a: Move)
    requires SameBoard(root, s) && Legal(s, a)
    ensures SameBoard(root, Jump(s, a))
    ensures Jump(s, a) == Board(root, Jump(s, a).state)
  {
    KeyDeterminesState(root, Jump(s, a));
  }

  /** Every path from root to a state has the same length, the number of
      pegs the state has lost. */
  lemma PathsToOneStateAgree(root: State, p1: seq<Step>, p2: seq<Step>, t: State)
    requires Valid(root) && Chain(root, p1, t) && Chain(root, p2, t)
    ensures |p1| == |p2| == Pegs(root) - Pegs(t)
  {
    ChainLength(root, p1, t);
    ChainLength(root, p2, t);
  }

  /** A set of integers of root's board that holds root and holds the
      successor of each of its states under every legal move holds every
      state a path from root reaches. */
  lemma {:induction false} ClosedCoversPaths(root: State, closed: set<nat>, s: State, steps: seq<Step>, t: State)
    requires SameBoard(root, s) && s.state in closed
    requires forall k :: k in closed ==> SameBoard(root, Board(root, k))
    requires forall k, a :: k in closed && Legal(Board(root, k), a) ==> Jump(Board(root, k), a).state in closed
    requires Chain(s, steps, t)
    ensures SameBoard(root, t) && t.state in closed
    decreases |steps|
  {
    KeyDeterminesState(root, s);
    if steps != [] {
      var a := steps[0].action.value;
      JumpSameBoard(root, s, a);
      ClosedCoversPaths(root, closed, steps[0].state, steps[1..], t);
    }
  }

  /** Without an initial empty cell no state is a goal: goal compares the
      position of the last peg with None. */
  lemma FullBoardNeverGoal(root: State, steps: seq<Step>, t: State)
    requires Valid(root) && root.initialEmpty.None? && Chain(root, steps, t)
    ensures !Goal(t)
  {
    ChainLength(root, steps, t);
  }

  /** A state built from a seed is never itself a goal: its one peg would
      have to sit on its first empty cell. */
  lemma SeedIsNotGoal(s: State)
    requires Valid(s)
    requires s.initialEmpty.Some? ==> s.initialEmpty.value == Find(s.binaryVal, '0')
    ensures !Goal(s)
  {
    if Goal(s) {
      GoalIff(s);
    }
  }

  /** The integer of the successor of s under its j-th legal move. */
  function SuccessorKey(s: State, j: nat): nat
    requires Valid(s) && j < |LegalMoves(s)|
  {
    LegalMoveAt(s, j);
    Jump(s, LegalMoves(s)[j]).state
  }

  /** The integers of the successors of s under its first i legal moves. */
  function SuccessorKeys(s: State, i: nat): set<nat>
    requires Valid(s) && i <= |LegalMoves(s)|
    decreases i
  {
    if i == 0 then {} else SuccessorKeys(s, i - 1) + {SuccessorKey(s, i - 1)}
  }

  /** Every legal move of s leads to one of the successor integers. */
  lemma SuccessorKeysComplete(s: State)
    requires Valid(s)
    ensures forall a :: Legal(s, a) ==> Jump(s, a).state in SuccessorKeys(s, |LegalMoves(s)|)
  {
    forall a | Legal(s, a)
      ensures Jump(s, a).state in SuccessorKeys(s, |LegalMoves(s)|)
    {
      SuccessorKeyOf(s, a);
    }
  }

  lemma SuccessorKeyOf(s: State, a: Move)
    requires Legal(s, a)
    ensures Jump(s, a).state in SuccessorKeys(s, |LegalMoves(s)|)
  {
    var moves := LegalMoves(s);
    LegalMoveListed(s, a);
    var j :| 0 <= j < |moves| && moves[j] == a;
    SuccessorKeysHold(s, |moves|, j);
  }

  lemma {:induction false} SuccessorKeysHold(s: State, i: nat, j: nat)
    requires Valid(s) && j < i <= |LegalMoves(s)|
    ensures SuccessorKey(s, j) in SuccessorKeys(s, i)
    decreases i
  {
    if j < i - 1 {
      SuccessorKeysHold(s, i - 1, j);
    }
  }
}
