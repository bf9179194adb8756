/** astar1, astar2 and astar3 of heuristics.py, which differ only in the
    heuristic they call: one best-first search parameterised by the choice
    of heuristic. The open list is a priority queue of (f, counter, state)
    entries; g_n and f_n are keyed by the state integer; prevNode and
    prevAct link each discovered state to the state and move it was first
    reached by. */
module BestFirst {
  import opened Bits
  import opened Pegboard
  import opened Enumerator
  import opened Paths
  import opened Heuristics

  /** A priority-queue entry (f(n), next(counter), state). */
  datatype QueueItem = QueueItem(f: nat, count: nat, state: State)

  /** The search's variables: the open list and the set of its integers,
      g_n and f_n, prevNode and prevAct, the tie-break counter, and the
      count of expanded nodes. */
  datatype Search = Search(
    open: seq<QueueItem>,
    openStates: set<nat>,
    g: map<nat, nat>,
    f: map<nat, nat>,
    prevNode: map<nat, State>,
    prevAct: map<nat, Move>,
    counter: nat,
    nodes: nat)

  /** The integers of the states in the open list. */
  function QueueKeys(q: seq<QueueItem>): set<nat> {
    set i | 0 <= i < |q| :: q[i].state.state
  }

  /** No state is in the open list twice. */
  predicate Distinct(q: seq<QueueItem>) {
    forall i, j :: 0 <= i < j < |q| ==> q[i].state.state != q[j].state.state
  }

  /** The counters of the open list increase from front to back: each
      push takes the next value of the counter. */
  predicate Ticketed(q: seq<QueueItem>) {
    forall i, j :: 0 <= i < j < |q| ==> q[i].count < q[j].count
  }

  /** Tuple order on (f, counter), the order heappop follows. */
  predicate Precedes(x: QueueItem, y: QueueItem) {
    x.f < y.f || (x.f == y.f && x.count <= y.count)
  }

  /** heappop's choice: the position of an entry with the least (f, counter). */
  function MinIndex(q: seq<QueueItem>): (i: nat)
    requires |q| > 0
    ensures i < |q| && forall j :: 0 <= j < |q| ==> Precedes(q[i], q[j])
    decreases |q|
  {
    if |q| == 1 then 0
    else
      var k := MinIndex(q[..|q| - 1]);
      if Precedes(q[k], q[|q| - 1]) then k else |q| - 1
  }

  /** With distinct counters no two entries tie on (f, counter), so the
      entry heappop takes is the only least one, whatever the heap's
      internal order. */
  lemma LeastIsUnique(q: seq<QueueItem>)
    requires |q| > 0 && Ticketed(q)
    ensures forall j :: 0 <= j < |q| && j != MinIndex(q) ==> !Precedes(q[j], q[MinIndex(q)])
  {
    var i := MinIndex(q);
    forall j | 0 <= j < |q| && j != i
      ensures !Precedes(q[j], q[i])
    {
      assert Precedes(q[i], q[j]);
      if j < i {
        assert q[j].count < q[i].count;
      } else {
        assert q[i].count < q[j].count;
      }
    }
  }

  /** Every discovered integer is a state of root's board, and its g value
      is the number of pegs it has lost since root. */
  ghost predicate Recorded(root: State, g: map<nat, nat>) {
    && Valid(root)
    && root.state in g
    && forall k :: k in g ==> k < Pow2(Cells(root)) && g[k] + PopCount(k) == PopCount(root.state)
  }

  /** An open-list entry: a state of root's board that has been discovered,
      whose priority is f_n = g_n + h, with a counter already handed out. */
  ghost predicate WellQueued(root: State, h: HeuristicChoice, g: map<nat, nat>, f: map<nat, nat>, counter: nat, e: QueueItem) {
    && SameBoard(root, e.state)
    && e.state.state in g && e.state.state in f
    && e.f == f[e.state.state] == g[e.state.state] + Estimate(h, e.state)
    && e.count < counter
  }

  /** open_nodes_states is the set of integers in the open list, which
      holds discovered states only, each once. */
  ghost predicate Queued(root: State, h: HeuristicChoice, s: Search) {
    && s.openStates == QueueKeys(s.open)
    && s.openStates <= s.g.Keys
    && s.f.Keys == s.g.Keys
    && Distinct(s.open)
    && Ticketed(s.open)
    && forall i :: 0 <= i < |s.open| ==> WellQueued(root, h, s.g, s.f, s.counter, s.open[i])
  }

  /** prevNode and prevAct are defined on every discovered integer but
      root's, and record a legal move from a discovered state with a
      smaller g value to it. */
  ghost predicate Linked(root: State, g: map<nat, nat>, prevNode: map<nat, State>, prevAct: map<nat, Move>) {
    && prevNode.Keys == g.Keys - {root.state}
    && prevAct.Keys == prevNode.Keys
    && forall k :: k in prevNode ==> Link(root, g, prevNode, prevAct, k)
  }

  /** The recorded link of integer k: a legal move from a discovered state
      of root's board whose g value is smaller, to k. */
  ghost predicate Link(root: State, g: map<nat, nat>, prevNode: map<nat, State>, prevAct: map<nat, Move>, k: nat) {
    && k in prevNode && k in prevAct && k in g
    && SameBoard(root, prevNode[k])
    && prevNode[k].state in g
    && g[prevNode[k].state] < g[k]
    && Legal(prevNode[k], prevAct[k])
    && Jump(prevNode[k], prevAct[k]).state == k
  }

  /** One counter value per discovered state; nodes counts all but root. */
  ghost predicate Counted(s: Search) {
    s.counter == |s.g.Keys| && s.nodes + 1 == s.counter
  }

  /** The state of root's board with integer k is not a goal and all its
      successors are discovered. */
  ghost predicate Closed(root: State, g: map<nat, nat>, k: nat) {
    && !Goal(Board(root, k))
    && forall a :: Legal(Board(root, k), a) ==> Jump(Board(root, k), a).state in g
  }

  /** Every discovered state that has left the open list, except the one
      whose expansion is under way, is closed. */
  ghost predicate AllClosed(root: State, g: map<nat, nat>, openStates: set<nat>, pending: set<nat>) {
    forall k :: k in g && k !in openStates && k !in pending ==> Closed(root, g, k)
  }

  ghost predicate Inv(root: State, h: HeuristicChoice, s: Search, pending: set<nat>) {
    && Recorded(root, s.g)
    && Queued(root, h, s)
    && Linked(root, s.g, s.prevNode, s.prevAct)
    && Counted(s)
    && AllClosed(root, s.g, s.openStates, pending)
  }

  /** astarN(state), with the printing replaced by the returned outcome. */
  method AStar(root: State, h: HeuristicChoice) returns (o: Outcome, ghost discovered: set<nat>)
    requires Valid(root)
    ensures o.Solved? ==>
      && Chain(root, o.path, Final(root, o.path))
      && Goal(Final(root, o.path))
      && |o.path| + 1 == Pegs(root)
    ensures o.Failed? ==> forall steps, t :: Chain(root, steps, t) ==> t.state in discovered && !Goal(t)
    ensures o.nodes + 1 == |discovered| && root.state in discovered
  {
    var h0 := Heuristic(h, root);
    var s := Search([QueueItem(h0, 0, root)], {root.state}, map[root.state := 0], map[root.state := h0],
                    map[], map[], 1, 0);
    Start(root, h, h0, s);
    while s.open != []
      invariant Inv(root, h, s, {})
      decreases Pow2(Cells(root)) - |s.g.Keys|, |s.open|
    {
      DiscoveredBound(root, s.g);
      var i := MinIndex(s.open);
      var currState := s.open[i].state;
      s := Pop(root, h, s, i);
      if Goal(currState) {
        var path := Reconstruct(root, s, currState);
        ChainLength(root, path, currState);
        return Solved(path, s.nodes), s.g.Keys;
      }
      s := Expand(root, h, s, currState);
    }
    ExpandedIsComplete(root, h, s);
    return Failed(s.nodes), s.g.Keys;
  }

  /** The search's variables before the loop: root alone is open and
      discovered, with g_n = 0 and f_n = h(root). */
  lemma Start(root: State, h: HeuristicChoice, h0: nat, s: Search)
    requires Valid(root) && h0 == Estimate(h, root)
    requires s == Search([QueueItem(h0, 0, root)], {root.state}, map[root.state := 0], map[root.state := h0],
                         map[], map[], 1, 0)
    ensures Inv(root, h, s, {})
  {
    ValueBound(root.binaryVal);
    assert QueueKeys(s.open) == {root.state} by {
      assert s.open[0].state.state == root.state;
    }
  }

  /** heappop and open_nodes_states.remove: entry i leaves the open list. */
  method Pop(root: State, h: HeuristicChoice, s0: Search, i: nat) returns (s: Search)
    requires Inv(root, h, s0, {}) && i < |s0.open|
    ensures s == s0.(open := s0.open[..i] + s0.open[i + 1..],
                     openStates := s0.openStates - {s0.open[i].state.state})
    ensures Inv(root, h, s, {s0.open[i].state.state})
    ensures SameBoard(root, s0.open[i].state) && s0.open[i].state.state in s.g
    ensures s0.open[i].state.state !in s.openStates
    ensures |s.open| + 1 == |s0.open| && s.g == s0.g
  {
    var q := s0.open[..i] + s0.open[i + 1..];
    s := s0.(open := q, openStates := s0.openStates - {s0.open[i].state.state});
    Remove(s0.open, i);
    assert WellQueued(root, h, s0.g, s0.f, s0.counter, s0.open[i]);
  }

  /** Removing entry i from a list without repeated states removes exactly
      its integer, and the rest keeps its order. */
  lemma Remove(q: seq<QueueItem>, i: nat)
    requires Distinct(q) && i < |q|
    ensures var r := q[..i] + q[i + 1..];
      && |r| + 1 == |q|
      && (forall j :: 0 <= j < |r| ==> r[j] == q[if j < i then j else j + 1])
      && Distinct(r)
      && (Ticketed(q) ==> Ticketed(r))
      && QueueKeys(r) == QueueKeys(q) - {q[i].state.state}
  {
    var r := q[..i] + q[i + 1..];
    assert forall j :: 0 <= j < |r| ==> r[j] == q[if j < i then j else j + 1];
    forall x | x in QueueKeys(q) - {q[i].state.state}
      ensures x in QueueKeys(r)
    {
      var j :| 0 <= j < |q| && q[j].state.state == x;
      if j < i {
        assert r[j] == q[j];
      } else {
        assert r[j - 1] == q[j];
      }
    }
  }

  /** The loop over currState.applicableActions() for a popped state that
      is not a goal: every successor is relaxed in turn. */
  method Expand(root: State, h: HeuristicChoice, s0: Search, currState: State) returns (s: Search)
    requires Inv(root, h, s0, {currState.state})
    requires SameBoard(root, currState) && currState.state in s0.g
    requires currState.state !in s0.openStates && !Goal(currState)
    ensures Inv(root, h, s, {})
    ensures currState.state in s.g && currState.state !in s.openStates && Closed(root, s.g, currState.state)
    ensures Extends(s0, s)
    ensures |s0.g.Keys| <= |s.g.Keys|
    ensures |s.open| - |s0.open| == |s.g.Keys| - |s0.g.Keys|
  {
    s := s0;
    var actions := ApplicableActions(currState);
    for i := 0 to |actions|
      invariant Inv(root, h, s, {currState.state})
      invariant currState.state !in s.openStates
      invariant Extends(s0, s)
      invariant |s0.g.Keys| <= |s.g.Keys|
      invariant |s.open| - |s0.open| == |s.g.Keys| - |s0.g.Keys|
      invariant SuccessorKeys(currState, i) <= s.g.Keys
    {
      LegalMoveAt(currState, i);
      ghost var prev := s;
      s := Relax(root, h, s, currState, actions[i]);
      Relaxed(root, h, prev, currState, actions[i], s);
      RelaxExtends(prev, currState, actions[i], Estimate(h, Jump(currState, actions[i])), s);
      ExtendsTransitive(s0, prev, s);
    }
    SuccessorKeysComplete(currState);
    Close(root, h, s, currState);
  }

  /** s carries on from s0: discovered integers keep their g and f values
      and their links, the old open list is a prefix of the new one, and
      every entry behind it is a state that s0 had not discovered. */
  ghost predicate Extends(s0: Search, s: Search) {
    && s0.g.Keys <= s.g.Keys
    && (forall k :: k in s0.g ==> k in s.g && s.g[k] == s0.g[k])
    && (forall k :: k in s0.f ==> k in s.f && s.f[k] == s0.f[k])
    && (forall k :: k in s0.prevNode ==> k in s.prevNode && s.prevNode[k] == s0.prevNode[k])
    && (forall k :: k in s0.prevAct ==> k in s.prevAct && s.prevAct[k] == s0.prevAct[k])
    && |s0.open| <= |s.open| && s.open[..|s0.open|] == s0.open
    && (forall j :: |s0.open| <= j < |s.open| ==> s.open[j].state.state !in s0.g)
  }

  lemma ExtendsTransitive(s0: Search, s1: Search, s2: Search)
    requires Extends(s0, s1) && Extends(s1, s2)
    ensures Extends(s0, s2)
  {
    assert s2.open[..|s0.open|] == s1.open[..|s0.open|];
    forall j | |s0.open| <= j < |s2.open|
      ensures s2.open[j].state.state !in s0.g
    {
      if j < |s1.open| {
        assert s2.open[j] == s1.open[j];
      }
    }
  }

  /** Once all its successors are discovered, the expanded state is closed. */
  lemma Close(root: State, h: HeuristicChoice, s: Search, currState: State)
    requires Inv(root, h, s, {currState.state})
    requires SameBoard(root, currState) && !Goal(currState)
    requires currState.state !in s.openStates
    requires SuccessorKeys(currState, |LegalMoves(currState)|) <= s.g.Keys
    requires forall a :: Legal(currState, a) ==> Jump(currState, a).state in SuccessorKeys(currState, |LegalMoves(currState)|)
    ensures Inv(root, h, s, {})
  {
    KeyDeterminesState(root, currState);
    assert Closed(root, s.g, currState.state);
  }

  /** One successor: if g_n[currState] + 1 beats the recorded g value of the
      new state (infinity when it has none), record the link, g and f, and
      push the state unless it is already open. */
  method Relax(root: State, h: HeuristicChoice, s0: Search, currState: State, currAct: Move) returns (s: Search)
    requires Recorded(root, s0.g)
    requires SameBoard(root, currState) && currState.state in s0.g
    requires Legal(currState, currAct)
    ensures var t := Jump(currState, currAct);
      s == if t.state in s0.g then s0 else Improve(s0, currState, currAct, t, Estimate(h, t))
  {
    var newState := ApplyState(currAct, currState);
    FirstDiscoveryOnly(root, s0.g, currState, currAct);
    s := s0;
    if newState.state !in s.g || s.g[currState.state] + 1 < s.g[newState.state] {
      var hv := Heuristic(h, newState);
      s := Improve(s, currState, currAct, newState, hv);
    }
  }

  /** The update test g_n[currState] + 1 < g_n.get(newState, inf) fires
      exactly when the new state has not been discovered: every path to a
      state has the same length, so a recorded g value is never beaten. */
  lemma FirstDiscoveryOnly(root: State, g: map<nat, nat>, currState: State, a: Move)
    requires Recorded(root, g)
    requires SameBoard(root, currState) && currState.state in g
    requires Legal(currState, a)
    ensures var k := Jump(currState, a).state;
      (k !in g || g[currState.state] + 1 < g[k]) <==> k !in g
  {
    var t := Jump(currState, a);
    PegsIsPopCount(currState);
    PegsIsPopCount(t);
  }

  /** The body of the update test: record currState and a as the way to
      t, set g_n and f_n of t (hv is its heuristic value), and push t with
      the next counter value unless it is already open. */
  function Improve(s: Search, currState: State, a: Move, t: State, hv: nat): Search
    requires currState.state in s.g
  {
    var s := s.(prevNode := s.prevNode[t.state := currState],
                prevAct := s.prevAct[t.state := a],
                g := s.g[t.state := s.g[currState.state] + 1]);
    var s := s.(f := s.f[t.state := s.g[t.state] + hv]);
    if t.state !in s.openStates then
      s.(open := s.open + [QueueItem(s.f[t.state], s.counter, t)],
         openStates := s.openStates + {t.state},
         counter := s.counter + 1,
         nodes := s.nodes + 1)
    else s
  }

  /** Relaxing a successor keeps the invariant; it adds the successor's
      integer to the discovered ones, and to the open list when it is new. */
  lemma Relaxed(root: State, h: HeuristicChoice, s0: Search, currState: State, a: Move, s: Search)
    requires Inv(root, h, s0, {currState.state})
    requires SameBoard(root, currState) && currState.state in s0.g
    requires currState.state !in s0.openStates
    requires Legal(currState, a)
    requires var t := Jump(currState, a);
      s == if t.state in s0.g then s0 else Improve(s0, currState, a, t, Estimate(h, t))
    ensures Inv(root, h, s, {currState.state})
    ensures currState.state !in s.openStates
    ensures s.g.Keys == s0.g.Keys + {Jump(currState, a).state}
    ensures |s0.g.Keys| <= |s.g.Keys|
    ensures |s.open| - |s0.open| == |s.g.Keys| - |s0.g.Keys|
  {
    var t := Jump(currState, a);
    if t.state in s0.g {
      assert s == s0;
    } else {
      Discovered(root, h, s0, currState, a, t, Estimate(h, t));
      ImproveKeys(s0, currState, a, t, Estimate(h, t));
    }
  }

  /** Discovering a new state adds its integer to the discovered ones and
      one item to the open list, and leaves the expanded state closed. */
  lemma ImproveKeys(s0: Search, currState: State, a: Move, t: State, hv: nat)
    requires currState.state in s0.g && currState.state !in s0.openStates
    requires t.state !in s0.g && t.state !in s0.openStates
    ensures var s := Improve(s0, currState, a, t, hv);
      && currState.state !in s.openStates
      && s.g.Keys == s0.g.Keys + {t.state}
      && |s.g.Keys| == |s0.g.Keys| + 1
      && |s.open| == |s0.open| + 1
  {
    assert Improve(s0, currState, a, t, hv).g.Keys == s0.g.Keys + {t.state};
  }

  /** Discovering a new state changes the search only at its integer and
      appends at most one entry, for that state, to the open list. */
  lemma ImproveExtends(s0: Search, currState: State, a: Move, t: State, hv: nat)
    requires currState.state in s0.g && t.state !in s0.g && s0.f.Keys == s0.g.Keys
    requires s0.prevNode.Keys <= s0.g.Keys && s0.prevAct.Keys <= s0.g.Keys
    ensures Extends(s0, Improve(s0, currState, a, t, hv))
  {
    var s := Improve(s0, currState, a, t, hv);
    ImproveLinks(s0, currState, a, t, hv);
    if |s.open| > |s0.open| {
      assert s.open == s0.open + [s.open[|s0.open|]];
      assert s.open[..|s0.open|] == s0.open;
    }
  }

  /** Relaxing a successor carries the search on from where it was. */
  lemma RelaxExtends(s0: Search, currState: State, a: Move, hv: nat, s: Search)
    requires currState.state in s0.g && s0.f.Keys == s0.g.Keys
    requires s0.prevNode.Keys <= s0.g.Keys && s0.prevAct.Keys <= s0.g.Keys
    requires Legal(currState, a)
    requires var t := Jump(currState, a);
      s == if t.state in s0.g then s0 else Improve(s0, currState, a, t, hv)
    ensures Extends(s0, s)
  {
    var t := Jump(currState, a);
    if t.state !in s0.g {
      ImproveExtends(s0, currState, a, t, hv);
    }
  }

  /** Discovering a new state keeps every part of the invariant. */
  lemma Discovered(root: State, h: HeuristicChoice, s0: Search, currState: State, a: Move, t: State, hv: nat)
    requires Inv(root, h, s0, {currState.state})
    requires SameBoard(root, currState) && currState.state in s0.g
    requires currState.state !in s0.openStates
    requires Legal(currState, a) && t == Jump(currState, a) && t.state !in s0.g
    requires hv == Estimate(h, t)
    ensures var s := Improve(s0, currState, a, t, hv);
      && Recorded(root, s.g)
      && Queued(root, h, s)
      && Linked(root, s.g, s.prevNode, s.prevAct)
      && Counted(s)
      && AllClosed(root, s.g, s.openStates, {currState.state})
  {
    JumpSameBoard(root, currState, a);
    assert t.state !in s0.openStates;
    RecordedAfter(root, s0, currState, a, t, hv);
    QueuedAfter(root, h, s0, currState, a, t, hv);
    ImproveLinks(s0, currState, a, t, hv);
    LinkedAfter(root, s0, currState, a, t, Improve(s0, currState, a, t, hv));
    CountedAfter(s0, currState, a, t, hv);
    ExpandedAfter(root, s0, currState, a, t, hv);
  }

  lemma CountedAfter(s0: Search, currState: State, a: Move, t: State, hv: nat)
    requires Counted(s0)
    requires currState.state in s0.g && t.state !in s0.g && t.state !in s0.openStates
    ensures Counted(Improve(s0, currState, a, t, hv))
  {
    assert Improve(s0, currState, a, t, hv).g.Keys == s0.g.Keys + {t.state};
  }

  lemma RecordedAfter(root: State, s0: Search, currState: State, a: Move, t: State, hv: nat)
    requires Recorded(root, s0.g)
    requires SameBoard(root, currState) && currState.state in s0.g
    requires SameBoard(root, t) && Pegs(t) + 1 == Pegs(currState)
    ensures Recorded(root, Improve(s0, currState, a, t, hv).g)
  {
    PegsIsPopCount(currState);
    PegsIsPopCount(t);
    ValueBound(t.binaryVal);
  }

  lemma QueuedAfter(root: State, h: HeuristicChoice, s0: Search, currState: State, a: Move, t: State, hv: nat)
    requires Queued(root, h, s0)
    requires currState.state in s0.g
    requires SameBoard(root, t) && t.state !in s0.g && t.state !in s0.openStates
    requires hv == Estimate(h, t)
    ensures Queued(root, h, Improve(s0, currState, a, t, hv))
  {
    var s := Improve(s0, currState, a, t, hv);
    Push(s0.open, s.open[|s0.open|]);
    assert s.open == s0.open + [s.open[|s0.open|]];
    assert Ticketed(s.open) by {
      forall i | 0 <= i < |s0.open|
        ensures s0.open[i].count < s.open[|s0.open|].count
      {
        assert WellQueued(root, h, s0.g, s0.f, s0.counter, s0.open[i]);
      }
    }
    forall i | 0 <= i < |s.open|
      ensures WellQueued(root, h, s.g, s.f, s.counter, s.open[i])
    {
      if i < |s0.open| {
        assert WellQueued(root, h, s0.g, s0.f, s0.counter, s0.open[i]);
      }
    }
  }

  lemma LinkedAfter(root: State, s0: Search, currState: State, a: Move, t: State, s: Search)
    requires Linked(root, s0.g, s0.prevNode, s0.prevAct) && root.state in s0.g
    requires SameBoard(root, currState) && currState.state in s0.g
    requires Legal(currState, a) && Jump(currState, a) == t && t.state !in s0.g
    requires s.g == s0.g[t.state := s0.g[currState.state] + 1]
    requires s.prevNode == s0.prevNode[t.state := currState] && s.prevAct == s0.prevAct[t.state := a]
    ensures Linked(root, s.g, s.prevNode, s.prevAct)
  {
    LinkedMaps(root, s0.g, s0.prevNode, s0.prevAct, currState, a, t);
  }

  /** Linking a new integer t by a legal move from a discovered state, one
      g value further, keeps prevNode and prevAct linked. */
  lemma LinkedMaps(root: State, g: map<nat, nat>, prevNode: map<nat, State>, prevAct: map<nat, Move>,
                   currState: State, a: Move, t: State)
    requires Linked(root, g, prevNode, prevAct) && root.state in g
    requires SameBoard(root, currState) && currState.state in g
    requires Legal(currState, a) && Jump(currState, a) == t && t.state !in g
    ensures Linked(root, g[t.state := g[currState.state] + 1], prevNode[t.state := currState], prevAct[t.state := a])
  {
    LinkKeysAfter(g, prevNode, prevAct, root.state, t.state, g[currState.state] + 1, currState, a);
    LinksAfter(root, g, prevNode, prevAct, currState, a, t);
  }

  /** The update records currState and a as the way to t and gives t the g
      value one more than currState's, whether or not t was open. */
  lemma ImproveLinks(s0: Search, currState: State, a: Move, t: State, hv: nat)
    requires currState.state in s0.g
    ensures var s := Improve(s0, currState, a, t, hv);
      && s.g == s0.g[t.state := s0.g[currState.state] + 1]
      && s.prevNode == s0.prevNode[t.state := currState]
      && s.prevAct == s0.prevAct[t.state := a]
  {
  }

  /** Giving a new integer t other than root's a g value and a link keeps
      the links defined exactly on the discovered integers but root's. */
  lemma LinkKeysAfter(g: map<nat, nat>, prevNode: map<nat, State>, prevAct: map<nat, Move>,
                      r: nat, t: nat, v: nat, p: State, a: Move)
    requires prevNode.Keys == g.Keys - {r} && prevAct.Keys == prevNode.Keys && t != r
    ensures prevNode[t := p].Keys == g[t := v].Keys - {r}
    ensures prevAct[t := a].Keys == prevNode[t := p].Keys
  {
    assert prevNode[t := p].Keys == prevNode.Keys + {t};
    assert g[t := v].Keys == g.Keys + {t};
  }

  lemma LinksAfter(root: State, g: map<nat, nat>, prevNode: map<nat, State>, prevAct: map<nat, Move>,
                   currState: State, a: Move, t: State)
    requires forall k :: k in prevNode ==> Link(root, g, prevNode, prevAct, k)
    requires SameBoard(root, currState) && currState.state in g
    requires Legal(currState, a) && Jump(currState, a) == t && t.state !in g
    ensures var (g', prevNode', prevAct') := (g[t.state := g[currState.state] + 1], prevNode[t.state := currState], prevAct[t.state := a]);
      forall k :: k in prevNode' ==> Link(root, g', prevNode', prevAct', k)
  {
    var v := g[currState.state] + 1;
    var (g', prevNode', prevAct') := (g[t.state := v], prevNode[t.state := currState], prevAct[t.state := a]);
    forall k | k in prevNode'
      ensures Link(root, g', prevNode', prevAct', k)
    {
      if k != t.state {
        LinkKept(root, g, prevNode, prevAct, k, t.state, v, currState, a);
      }
    }
  }

  /** Adding the link of a new integer t leaves the link of k as it was. */
  lemma LinkKept(root: State, g: map<nat, nat>, prevNode: map<nat, State>, prevAct: map<nat, Move>,
                 k: nat, t: nat, v: nat, p: State, a: Move)
    requires Link(root, g, prevNode, prevAct, k) && t !in g
    ensures Link(root, g[t := v], prevNode[t := p], prevAct[t := a], k)
  {
  }

  lemma ExpandedAfter(root: State, s0: Search, currState: State, a: Move, t: State, hv: nat)
    requires AllClosed(root, s0.g, s0.openStates, {currState.state})
    requires currState.state in s0.g && t.state !in s0.openStates
    ensures var s := Improve(s0, currState, a, t, hv); AllClosed(root, s.g, s.openStates, {currState.state})
  {
    var s := Improve(s0, currState, a, t, hv);
    forall k | k in s.g && k !in s.openStates && k !in {currState.state}
      ensures Closed(root, s.g, k)
    {
      assert Closed(root, s0.g, k);
    }
  }

  /** Pushing an entry whose state is not open adds its integer and keeps
      the states distinct. */
  lemma Push(q: seq<QueueItem>, e: QueueItem)
    requires Distinct(q) && e.state.state !in QueueKeys(q)
    ensures Distinct(q + [e]) && QueueKeys(q + [e]) == QueueKeys(q) + {e.state.state}
  {
    var r := q + [e];
    assert r[|q|] == e;
    forall x | x in QueueKeys(q)
      ensures x in QueueKeys(r)
    {
      var j :| 0 <= j < |q| && q[j].state.state == x;
      assert r[j] == q[j];
    }
  }

  /** The loop over prevNode from the goal back to root, followed by
      path.reverse(). */
  method Reconstruct(root: State, s: Search, goal: State) returns (path: seq<Step>)
    requires Recorded(root, s.g) && Linked(root, s.g, s.prevNode, s.prevAct)
    requires SameBoard(root, goal) && goal.state in s.g
    ensures Chain(root, path, goal)
  {
    var steps := [];
    var currState := goal;
    while currState.state in s.prevNode
      invariant SameBoard(root, currState) && currState.state in s.g
      invariant Chain(currState, Reverse(steps), goal)
      decreases s.g[currState.state]
    {
      var currAct := s.prevAct[currState.state];
      var prev := s.prevNode[currState.state];
      Back(root, s, currState);
      ChainPrepend(prev, currAct, Reverse(steps), goal);
      ReverseSnoc(steps, Step(Some(currAct), currState));
      steps := steps + [Step(Some(currAct), currState)];
      currState := prev;
    }
    KeyDeterminesState(root, currState);
    RootIsBoard(root);
    path := Reverse(steps);
  }

  /** The recorded link of a discovered state is a legal move that leads to
      it from a discovered state with a smaller g value. */
  lemma Back(root: State, s: Search, t: State)
    requires Recorded(root, s.g) && Linked(root, s.g, s.prevNode, s.prevAct)
    requires SameBoard(root, t) && t.state in s.prevNode
    ensures var p := s.prevNode[t.state]; var a := s.prevAct[t.state];
      && SameBoard(root, p) && p.state in s.g && s.g[p.state] < s.g[t.state]
      && Legal(p, a) && Jump(p, a) == t
  {
    var p := s.prevNode[t.state];
    var a := s.prevAct[t.state];
    JumpSameBoard(root, p, a);
    KeyDeterminesState(root, t);
  }

  /** There are at most 2^(n*n) discovered states. */
  lemma DiscoveredBound(root: State, g: map<nat, nat>)
    requires Recorded(root, g)
    ensures |g.Keys| <= Pow2(Cells(root))
  {
    BoundedSetSize(g.Keys, Pow2(Cells(root)));
  }

  /** A set of naturals below m has at most m elements. */
  lemma {:induction false} BoundedSetSize(ks: set<nat>, m: nat)
    requires forall k :: k in ks ==> k < m
    ensures |ks| <= m
    decreases m
  {
    if m > 0 {
      BoundedSetSize(ks - {m - 1}, m - 1);
    }
  }

  /** The integer k below 2^(n*n) names a state of root's board. */
  lemma BoardOf(root: State, k: nat)
    requires Valid(root) && k < Pow2(Cells(root))
    ensures SameBoard(root, Board(root, k)) && Board(root, k).state == k
  {
    ToBinaryLength(k, Cells(root));
    ZFillFacts(ToBinary(k), Cells(root));
  }

  /** When the open list runs empty, every state a path from root reaches
      has been discovered and is not a goal. */
  lemma ExpandedIsComplete(root: State, h: HeuristicChoice, s: Search)
    requires Inv(root, h, s, {}) && s.open == []
    ensures forall steps, t :: Chain(root, steps, t) ==> t.state in s.g.Keys && !Goal(t)
  {
    assert s.openStates == {};
    Complete(root, s.g);
  }

  lemma Complete(root: State, g: map<nat, nat>)
    requires Recorded(root, g)
    requires forall k :: k in g ==> Closed(root, g, k)
    ensures forall steps, t :: Chain(root, steps, t) ==> t.state in g.Keys && !Goal(t)
  {
    RootIsBoard(root);
    forall k | k in g.Keys
      ensures SameBoard(root, Board(root, k))
    {
      BoardOf(root, k);
    }
    forall steps, t | Chain(root, steps, t)
      ensures t.state in g.Keys && !Goal(t)
    {
      ClosedCoversPaths(root, g.Keys, root, steps, t);
      KeyDeterminesState(root, t);
      assert Closed(root, g, t.state);
    }
  }
}
