/** dfs of heuristics.py: a stack of (state, path) pairs and a closed set of
    state integers. A popped state is closed before its goal test; a
    successor is pushed, and counted, when its integer is not closed. */
module DepthFirst {
  import opened Bits
  import opened Pegboard
  import opened Enumerator
  import opened Paths

  /** A stack entry (currState, path). */
  datatype Entry = Entry(state: State, path: seq<Step>)

  /** The integers of the states on the stack. */
  function Keys(stack: seq<Entry>): set<nat>
    decreases |stack|
  {
    if stack == [] then {} else Keys(stack[..|stack| - 1]) + {stack[|stack| - 1].state.state}
  }

  /** b to the power e, for the base of the termination measure below, which
      is not 2 (Pow2 of module Bits serves the bit positions). */
  function Pow(b: nat, e: nat): nat
    decreases e
  {
    if e == 0 then 1 else b * Pow(b, e - 1)
  }

  /** The termination measure of the search: an entry with p pegs weighs
      base^p, base exceeding the number of moves of any state, so popping
      an entry and pushing its successors, which have one peg fewer, makes
      the stack lighter. */
  function Weight(stack: seq<Entry>, base: nat): nat
    decreases |stack|
  {
    if stack == [] then 0 else Weight(stack[..|stack| - 1], base) + Pow(base, Pegs(stack[|stack| - 1].state))
  }

  /** A stack entry as dfs builds it: the path starts with (None, root), its
      later pairs follow legal moves, and it ends at the entry's state. */
  predicate GoodEntry(root: State, e: Entry) {
    && SameBoard(root, e.state)
    && |e.path| >= 1
    && e.path[0] == Step(None, root)
    && Chain(root, e.path[1..], e.state)
    && e.path[|e.path| - 1].state == e.state
  }

  /** Every entry of the stack is well formed. */
  predicate AllGood(root: State, stack: seq<Entry>)
    decreases |stack|
  {
    stack == [] || (AllGood(root, stack[..|stack| - 1]) && GoodEntry(root, stack[|stack| - 1]))
  }

  /** A solution path as dfs reports it: it starts with (None, root), its
      later pairs follow legal moves, it ends at a goal, and it has one pair
      per peg of root (the moves and the root pair). */
  predicate Solution(root: State, path: seq<Step>) {
    && |path| >= 1 && |path| == Pegs(root)
    && path[0] == Step(None, root)
    && Chain(root, path[1..], path[|path| - 1].state)
    && Goal(path[|path| - 1].state)
  }

  /** The path of a well-formed entry whose state is a goal is a solution. */
  lemma GoalEntryIsSolution(root: State, e: Entry)
    requires Valid(root) && GoodEntry(root, e) && Goal(e.state)
    ensures Solution(root, e.path)
  {
    ChainLength(root, e.path[1..], e.state);
  }

  /** Every closed integer is the integer of a board of root's game that
      is not a goal. */
  ghost predicate ClosedSafe(root: State, closed: set<nat>) {
    forall k :: k in closed ==> SameBoard(root, Board(root, k)) && !Goal(Board(root, k))
  }

  /** Every successor of a closed state is closed or among keys. */
  ghost predicate Covered(root: State, closed: set<nat>, keys: set<nat>) {
    forall k, a :: k in closed && Legal(Board(root, k), a) ==> Jump(Board(root, k), a).state in closed + keys
  }

  /** closed.add(k) adds at most one integer. */
  lemma CloseOne(closed: set<nat>, k: nat)
    ensures |closed + {k}| <= |closed| + 1
  {
  }

  /** Closing a state of root's board that is not a goal keeps the closed
      set safe. */
  lemma CloseNonGoal(root: State, closed: set<nat>, s: State)
    requires ClosedSafe(root, closed) && SameBoard(root, s) && !Goal(s)
    ensures ClosedSafe(root, closed + {s.state})
  {
    KeyDeterminesState(root, s);
  }

  /** Popping s (whose integer was among restKeys + {s}) and pushing its
      open successors, which leaves the other keys in place, keeps every
      successor of a closed state closed or on the stack. */
  lemma Expanded(root: State, closed: set<nat>, s: State, restKeys: set<nat>, keys: set<nat>)
    requires Covered(root, closed, restKeys + {s.state})
    requires SameBoard(root, s) && restKeys <= keys
    requires SuccessorKeys(s, |LegalMoves(s)|) <= closed + {s.state} + keys
    ensures Covered(root, closed + {s.state}, keys)
  {
    KeyDeterminesState(root, s);
    SuccessorKeysComplete(s);
  }

  /** dfs(state), with the printing replaced by the returned outcome. The
      ghost closedAtEnd is the closed set when the search stops. Each of its
      integers was popped once at least, and nodes + 1 is at least the number
      of pops, so it bounds the closed set from above. On success the set
      holds root and the goal; on failure it holds the integer of every
      state reachable from root, so nodes + 1 is at least their number. */
  method Dfs(root: State) returns (o: Outcome, ghost closedAtEnd: set<nat>)
    requires Valid(root)
    ensures o.Solved? ==> Solution(root, o.path)
    ensures o.Failed? ==> forall steps, t :: Chain(root, steps, t) ==> t.state in closedAtEnd && !Goal(t)
    ensures o.Solved? ==> root.state in closedAtEnd && o.path[|o.path| - 1].state.state in closedAtEnd
    ensures |closedAtEnd| <= o.nodes + 1
  {
    RootIsBoard(root);
    var stack := [Entry(root, [Step(None, root)])];
    var closed: set<nat> := {};
    var nodes := 0;
    ghost var popped := 0;
    ghost var base: nat := Cells(root) * (Cells(root) * Cells(root)) + 1;
    while stack != []
      invariant AllGood(root, stack)
      invariant ClosedSafe(root, closed)
      invariant Covered(root, closed, Keys(stack))
      invariant root.state in closed || (closed == {} && stack == [Entry(root, [Step(None, root)])])
      invariant nodes + 1 == |stack| + popped
      invariant |closed| <= popped
      decreases Weight(stack, base)
    {
      var top := stack[|stack| - 1];
      var currState, path := top.state, top.path;
      PopEntry(root, stack, base);
      stack := stack[..|stack| - 1];
      ghost var restKeys := Keys(stack);
      popped := popped + 1;
      ghost var closed0 := closed;
      CloseOne(closed0, currState.state);
      closed := closed + {currState.state};
      if Goal(currState) {
        GoalEntryIsSolution(root, top);
        return Solved(path, nodes), closed;
      }
      CloseNonGoal(root, closed0, currState);
      stack, nodes := PushSuccessors(root, closed, currState, path, stack, nodes, base);
      Expanded(root, closed0, currState, restKeys, Keys(stack));
    }
    ClosedSearchIsComplete(root, closed);
    return Failed(nodes), closed;
  }

  /** The loop over currState.applicableActions(): each successor whose
      integer is not closed is pushed with its path extended by the move,
      and counted. */
  method PushSuccessors(root: State, closed: set<nat>, currState: State, path: seq<Step>,
                        stack0: seq<Entry>, nodes0: nat, ghost base: nat)
    returns (stack: seq<Entry>, nodes: nat)
    requires GoodEntry(root, Entry(currState, path))
    requires AllGood(root, stack0)
    requires base == Cells(root) * (Cells(root) * Cells(root)) + 1
    ensures stack == stack0 + Pushes(closed, currState, path, |LegalMoves(currState)|)
    ensures nodes == nodes0 + |Pushes(closed, currState, path, |LegalMoves(currState)|)|
    ensures AllGood(root, stack)
    ensures Keys(stack0) <= Keys(stack)
    ensures SuccessorKeys(currState, |LegalMoves(currState)|) <= closed + Keys(stack)
    ensures Weight(stack, base) < Weight(stack0, base) + Pow(base, Pegs(currState))
  {
    stack, nodes := stack0, nodes0;
    var actions := ApplicableActions(currState);
    ghost var unit: nat := if Pegs(currState) == 0 then 0 else Pow(base, Pegs(currState) - 1);
    TurnsStart(root, closed, currState, path, stack0, nodes0, base, unit);
    for i := 0 to |actions|
      invariant TurnInvariant(root, closed, currState, path, i, stack0, nodes0, stack, nodes, base, unit)
    {
      stack, nodes := Turn(root, closed, currState, path, i, actions[i], stack0, nodes0, stack, nodes, base, unit);
    }
    TurnsDone(root, closed, currState, path, stack0, nodes0, stack, nodes, base, unit);
  }

  /** Before the first turn nothing has been pushed. */
  lemma TurnsStart(root: State, closed: set<nat>, s: State, path: seq<Step>,
                   stack0: seq<Entry>, nodes0: nat, base: nat, unit: nat)
    requires Valid(s) && AllGood(root, stack0)
    ensures TurnInvariant(root, closed, s, path, 0, stack0, nodes0, stack0, nodes0, base, unit)
  {
    assert stack0 + [] == stack0;
  }

  /** After the last turn every successor has had its turn. */
  lemma TurnsDone(root: State, closed: set<nat>, s: State, path: seq<Step>,
                  stack0: seq<Entry>, nodes0: nat, stack: seq<Entry>, nodes: nat, base: nat, unit: nat)
    requires GoodEntry(root, Entry(s, path))
    requires base == Cells(root) * (Cells(root) * Cells(root)) + 1
    requires unit == (if Pegs(s) == 0 then 0 else Pow(base, Pegs(s) - 1))
    requires TurnInvariant(root, closed, s, path, |LegalMoves(s)|, stack0, nodes0, stack, nodes, base, unit)
    ensures stack == stack0 + Pushes(closed, s, path, |LegalMoves(s)|)
    ensures nodes == nodes0 + |Pushes(closed, s, path, |LegalMoves(s)|)|
    ensures AllGood(root, stack)
    ensures Keys(stack0) <= Keys(stack)
    ensures SuccessorKeys(s, |LegalMoves(s)|) <= closed + Keys(stack)
    ensures Weight(stack, base) < Weight(stack0, base) + Pow(base, Pegs(s))
  {
    LegalMovesBound(s);
    WithinBudget(s, |LegalMoves(s)|, unit, base);
  }

  /** The entries the loop pushes during its first i turns: for each of the
      first i applicable actions, in order, the successor with the path
      extended by the move, when the successor's integer is not closed. */
  function Pushes(closed: set<nat>, s: State, path: seq<Step>, i: nat): seq<Entry>
    requires Valid(s) && i <= |LegalMoves(s)|
    decreases i
  {
    if i == 0 then []
    else
      LegalMoveAt(s, i - 1);
      var a := LegalMoves(s)[i - 1];
      var t := Jump(s, a);
      Pushes(closed, s, path, i - 1) + (if t.state in closed then [] else [Entry(t, path + [Step(Some(a), t)])])
  }

  /** What the loop pushes, both ways: an entry is pushed exactly when it
      is the extended entry of one of the first i applicable actions whose
      successor's integer is not closed. */
  lemma {:induction false} PushesAreOpenSuccessors(closed: set<nat>, s: State, path: seq<Step>, i: nat)
    requires Valid(s) && i <= |LegalMoves(s)|
    ensures forall e :: e in Pushes(closed, s, path, i) ==>
      && e.state.state !in closed
      && exists a :: a in LegalMoves(s)[..i] && Legal(s, a) && e == Entry(Jump(s, a), path + [Step(Some(a), Jump(s, a))])
    ensures forall a :: a in LegalMoves(s)[..i] && Legal(s, a) && Jump(s, a).state !in closed ==>
      Entry(Jump(s, a), path + [Step(Some(a), Jump(s, a))]) in Pushes(closed, s, path, i)
    decreases i
  {
    if i > 0 {
      PushesAreOpenSuccessors(closed, s, path, i - 1);
      LegalMoveAt(s, i - 1);
      assert LegalMoves(s)[..i] == LegalMoves(s)[..i - 1] + [LegalMoves(s)[i - 1]];
    }
  }

  /** The invariant of that loop after i turns: the stack is stack0 with the
      first i pushes on top, each counted; every entry is well formed, no
      key of stack0 is lost, the first i successor integers are closed or on
      the stack, and the stack weighs at most i successor weights more than
      stack0. */
  ghost predicate TurnInvariant(root: State, closed: set<nat>, currState: State, path: seq<Step>, i: nat,
                                stack0: seq<Entry>, nodes0: nat, stack: seq<Entry>, nodes: nat, base: nat, unit: nat)
    requires Valid(currState) && i <= |LegalMoves(currState)|
  {
    && stack == stack0 + Pushes(closed, currState, path, i)
    && AllGood(root, stack)
    && Keys(stack0) <= Keys(stack)
    && SuccessorKeys(currState, i) <= closed + Keys(stack)
    && nodes + |stack0| == nodes0 + |stack|
    && Weight(stack, base) <= Weight(stack0, base) + Repeat(i, unit)
  }

  /** Turn i of that loop: pushing the i-th successor when it is open keeps
      the loop invariant. */
  method Turn(root: State, closed: set<nat>, currState: State, path: seq<Step>, i: nat, currAct: Move,
              stack0: seq<Entry>, nodes0: nat, stack1: seq<Entry>, nodes1: nat, ghost base: nat, ghost unit: nat)
    returns (stack: seq<Entry>, nodes: nat)
    requires GoodEntry(root, Entry(currState, path))
    requires i < |LegalMoves(currState)| && currAct == LegalMoves(currState)[i]
    requires unit == (if Pegs(currState) == 0 then 0 else Pow(base, Pegs(currState) - 1))
    requires TurnInvariant(root, closed, currState, path, i, stack0, nodes0, stack1, nodes1, base, unit)
    ensures TurnInvariant(root, closed, currState, path, i + 1, stack0, nodes0, stack, nodes, base, unit)
  {
    LegalMoveAt(currState, i);
    stack, nodes := PushIfOpen(root, closed, currState, path, currAct, stack1, nodes1, base);
    TurnKept(root, closed, currState, path, i, currAct, stack0, nodes0, stack1, nodes1, stack, nodes, base, unit);
  }

  /** The invariant after turn i follows from the invariant before it and
      what pushing the i-th successor when it is open did: the successor's
      entry went on top exactly when its integer is not closed, entries stay
      well formed, the keys grow, the successor's integer is closed or on
      the stack, at most one push was counted for at most one unit of
      weight. */
  lemma TurnKept(root: State, closed: set<nat>, s: State, path: seq<Step>, i: nat, a: Move, stack0: seq<Entry>, nodes0: nat,
                 stack1: seq<Entry>, nodes1: nat, stack: seq<Entry>, nodes: nat, base: nat, unit: nat)
    requires Valid(s) && i < |LegalMoves(s)| && a == LegalMoves(s)[i] && Legal(s, a)
    requires unit == (if Pegs(s) == 0 then 0 else Pow(base, Pegs(s) - 1))
    requires TurnInvariant(root, closed, s, path, i, stack0, nodes0, stack1, nodes1, base, unit)
    requires var t := Jump(s, a);
      && (t.state in closed ==> stack == stack1)
      && (t.state !in closed ==> stack == stack1 + [Entry(t, path + [Step(Some(a), t)])])
    requires AllGood(root, stack)
    requires Keys(stack1) <= Keys(stack) && Jump(s, a).state in closed + Keys(stack)
    requires nodes + |stack1| == nodes1 + |stack|
    requires Weight(stack, base) <= Weight(stack1, base) + Pow(base, Pegs(Jump(s, a)))
    ensures TurnInvariant(root, closed, s, path, i + 1, stack0, nodes0, stack, nodes, base, unit)
  {
    LegalMoveAt(s, i);
    LegalNeedsTwoPegs(s, a);
    assert Pegs(Jump(s, a)) == Pegs(s) - 1;
    PushesStep(closed, s, path, i, a, stack0, stack1, stack);
  }

  /** The stack after turn i is stack0 with the first i + 1 pushes on top. */
  lemma PushesStep(closed: set<nat>, s: State, path: seq<Step>, i: nat, a: Move,
                   stack0: seq<Entry>, stack1: seq<Entry>, stack: seq<Entry>)
    requires Valid(s) && i < |LegalMoves(s)| && a == LegalMoves(s)[i] && Legal(s, a)
    requires stack1 == stack0 + Pushes(closed, s, path, i)
    requires var t := Jump(s, a);
      && (t.state in closed ==> stack == stack1)
      && (t.state !in closed ==> stack == stack1 + [Entry(t, path + [Step(Some(a), t)])])
    ensures stack == stack0 + Pushes(closed, s, path, i + 1)
  {
    var t := Jump(s, a);
    if t.state !in closed {
      assert stack0 + Pushes(closed, s, path, i + 1) == stack0 + (Pushes(closed, s, path, i) + [Entry(t, path + [Step(Some(a), t)])]);
    }
  }

  /** One turn of that loop: apply the move and push the successor, with
      the extended path, when its integer is not closed. */
  method PushIfOpen(root: State, closed: set<nat>, currState: State, path: seq<Step>, currAct: Move,
                    stack0: seq<Entry>, nodes0: nat, ghost base: nat)
    returns (stack: seq<Entry>, nodes: nat)
    requires GoodEntry(root, Entry(currState, path)) && Legal(currState, currAct)
    requires AllGood(root, stack0)
    ensures var t := Jump(currState, currAct);
      && (t.state in closed ==> stack == stack0 && nodes == nodes0)
      && (t.state !in closed ==>
            stack == stack0 + [Entry(t, path + [Step(Some(currAct), t)])] && nodes == nodes0 + 1)
    ensures nodes + |stack0| == nodes0 + |stack|
    ensures AllGood(root, stack)
    ensures Jump(currState, currAct).state in closed + Keys(stack)
    ensures Keys(stack0) <= Keys(stack)
    ensures Weight(stack, base) <= Weight(stack0, base) + Pow(base, Pegs(Jump(currState, currAct)))
  {
    stack, nodes := stack0, nodes0;
    var newState := ApplyState(currAct, currState);
    if newState.state !in closed {
      nodes := nodes + 1;
      var newPath := path + [Step(Some(currAct), newState)];
      stack := stack + [Entry(newState, newPath)];
    }
    PushedEntry(root, closed, currState, path, currAct, stack0, nodes0, stack, nodes, base);
  }

  /** What one turn leaves behind, from the new state alone: well-formed
      entries, the successor's integer closed or on the stack, no key lost,
      and the weight grown by at most base^(pegs of the successor). */
  lemma PushedEntry(root: State, closed: set<nat>, s: State, path: seq<Step>, a: Move,
                    stack0: seq<Entry>, nodes0: nat, stack: seq<Entry>, nodes: nat, base: nat)
    requires GoodEntry(root, Entry(s, path)) && Legal(s, a)
    requires AllGood(root, stack0)
    requires var t := Jump(s, a);
      && (t.state in closed ==> stack == stack0 && nodes == nodes0)
      && (t.state !in closed ==>
            stack == stack0 + [Entry(t, path + [Step(Some(a), t)])] && nodes == nodes0 + 1)
    ensures nodes + |stack0| == nodes0 + |stack|
    ensures AllGood(root, stack)
    ensures Jump(s, a).state in closed + Keys(stack)
    ensures Keys(stack0) <= Keys(stack)
    ensures Weight(stack, base) <= Weight(stack0, base) + Pow(base, Pegs(Jump(s, a)))
  {
    var t := Jump(s, a);
    if t.state !in closed {
      ExtendEntry(root, s, path, a);
      PushEntry(root, stack0, Entry(t, path + [Step(Some(a), t)]));
    }
    PushedOrSkipped(closed, t, stack0, stack, base);
  }

  /** The keys and the weight after one turn: the successor's integer is
      closed or on the stack, and the stack grew by at most one entry of
      weight base^(pegs of the successor). */
  lemma PushedOrSkipped(closed: set<nat>, t: State, stack0: seq<Entry>, stack: seq<Entry>, base: nat)
    requires t.state in closed ==> stack == stack0
    requires t.state !in closed ==> |stack| == |stack0| + 1 && stack == stack0 + [Entry(t, stack[|stack0|].path)]
    ensures t.state in closed + Keys(stack)
    ensures Keys(stack0) <= Keys(stack)
    ensures Weight(stack, base) <= Weight(stack0, base) + Pow(base, Pegs(t))
  {
    if t.state !in closed {
      var e := stack[|stack0|];
      assert stack[..|stack0|] == stack0;
    }
  }

  /** Extending an entry's path by a legal move gives the successor's entry
      (newPath = path + [(currAct, newState)]). */
  lemma ExtendEntry(root: State, s: State, path: seq<Step>, a: Move)
    requires GoodEntry(root, Entry(s, path)) && Legal(s, a)
    ensures GoodEntry(root, Entry(Jump(s, a), path + [Step(Some(a), Jump(s, a))]))
  {
    var newPath := path + [Step(Some(a), Jump(s, a))];
    ChainExtend(root, path[1..], s, a);
    assert newPath[1..] == path[1..] + [Step(Some(a), Jump(s, a))];
    JumpSameBoard(root, s, a);
  }

  /** Popping the top entry of a stack of well-formed entries leaves well-formed
      entries, removes the top's weight and keeps the other keys. */
  lemma PopEntry(root: State, stack: seq<Entry>, base: nat)
    requires stack != [] && AllGood(root, stack)
    ensures var (rest, top) := (stack[..|stack| - 1], stack[|stack| - 1]);
      && GoodEntry(root, top)
      && AllGood(root, rest)
      && Weight(stack, base) == Weight(rest, base) + Pow(base, Pegs(top.state))
      && Keys(stack) == Keys(rest) + {top.state.state}
  {
  }

  /** Pushing a well-formed entry keeps every entry well formed. */
  lemma PushEntry(root: State, stack: seq<Entry>, e: Entry)
    requires AllGood(root, stack)
    requires GoodEntry(root, e)
    ensures AllGood(root, stack + [e])
  {
    assert (stack + [e])[..|stack|] == stack;
  }

  /** m copies of u added together: the weight bound of the push loop grows
      by one unit per turn, with no product in its invariant;
      RepeatIsProduct turns it into m * u where the bound is used. */
  function Repeat(m: nat, u: nat): nat
    decreases m
  {
    if m == 0 then 0 else Repeat(m - 1, u) + u
  }

  lemma {:induction false} RepeatIsProduct(m: nat, u: nat)
    ensures Repeat(m, u) == m * u
    decreases m
  {
    if m > 0 {
      RepeatIsProduct(m - 1, u);
    }
  }

  /** The successors of s, at most base-1 of them, each of weight
      base^(pegs-1), weigh less than s. */
  lemma WithinBudget(s: State, m: nat, unit: nat, base: nat)
    requires Valid(s) && m == |LegalMoves(s)| && m < base
    requires unit == (if Pegs(s) == 0 then 0 else Pow(base, Pegs(s) - 1))
    ensures Repeat(m, unit) < Pow(base, Pegs(s))
  {
    if m == 0 {
      PowPositive(base, Pegs(s));
    } else {
      LegalMoveAt(s, 0);
      LegalNeedsTwoPegs(s, LegalMoves(s)[0]);
      LighterAfterExpansion(m, unit, base, Pegs(s));
    }
  }

  /** At most base-1 successors of base^(p-1) each weigh less than one
      entry of base^p. */
  lemma LighterAfterExpansion(m: nat, unit: nat, base: nat, p: nat)
    requires p >= 1 && unit == Pow(base, p - 1) && m < base
    ensures Repeat(m, unit) < Pow(base, p)
  {
    RepeatIsProduct(m, unit);
    PowPositive(base, p - 1);
    assert m * unit < base * unit;
  }

  lemma {:induction false} PowPositive(b: nat, e: nat)
    requires b >= 1
    ensures Pow(b, e) >= 1
    decreases e
  {
    if e > 0 {
      PowPositive(b, e - 1);
      assert b * Pow(b, e - 1) >= Pow(b, e - 1);
    }
  }

  /** When the stack runs out, the closed set holds root, is closed under
      legal moves and holds no goal, so no path from root reaches a goal. */
  lemma ClosedSearchIsComplete(root: State, closed: set<nat>)
    requires Valid(root) && root.state in closed
    requires ClosedSafe(root, closed) && Covered(root, closed, {})
    ensures forall steps, t :: Chain(root, steps, t) ==> t.state in closed && !Goal(t)
  {
    RootIsBoard(root);
    forall steps, t | Chain(root, steps, t)
      ensures t.state in closed && !Goal(t)
    {
      ClosedCoversPaths(root, closed, root, steps, t);
      KeyDeterminesState(root, t);
    }
  }
}
