/** The three heuristics of heuristics.py: the number of legal moves, the
    Manhattan distance of the pegs to the initial empty cell, and three times
    the peg count plus that distance. */
module Heuristics {
  import opened Bits
  import opened Pegboard
  import opened Enumerator

  /** The set of legal moves of s, as triples of cells. */
  function LegalSet(s: State): (r: set<Move>)
    requires Valid(s)
    ensures forall a :: a in r <==> Legal(s, a)
  {
    LegalMovesExact(s);
    set a | a in LegalMoves(s)
  }

  /** heuristic1: len(state.applicableActions()). */
  method Heuristic1(s: State) returns (h: nat)
    requires Valid(s)
    ensures h == |LegalSet(s)|
    ensures h == 0 <==> forall a :: !Legal(s, a)
  {
    var actions := ApplicableActions(s);
    h := |actions|;
    LegalMovesIncreasing(s);
    DistinctCard(actions);
    if h > 0 {
      LegalMoveAt(s, 0);
    }
  }

  /** A strictly increasing list holds as many elements as its set. */
  lemma {:induction false} DistinctCard(q: seq<Move>)
    requires Increasing(q)
    ensures |set a | a in q| == |q|
    decreases |q|
  {
    if q != [] {
      var p := q[..|q| - 1];
      var x := q[|q| - 1];
      assert Increasing(p);
      DistinctCard(p);
      forall i | 0 <= i < |p|
        ensures p[i] != x
      {
        assert Before(q[i], q[|q| - 1]);
      }
      assert (set a | a in q) == (set a | a in p) + {x};
    }
  }

  /** Manhattan distance, on the grid of side n, between string indices i and e. */
  function Distance(i: nat, e: nat, n: nat): nat
    requires n > 0
  {
    Abs(i / n - e / n) + Abs(i % n - e % n)
  }

  /** The sum of Distance(i, e) over the string indices i < k that hold '1'. */
  function DistanceSum(b: string, e: nat, n: nat, k: nat): nat
    requires n > 0 && k <= |b|
    decreases k
  {
    if k == 0 then 0
    else DistanceSum(b, e, n, k - 1) + (if b[k - 1] == '1' then Distance(k - 1, e, n) else 0)
  }

  /** What heuristic2 computes: 0 without an initial empty cell, otherwise
      the total Manhattan distance of the pegs to it. */
  function ManhattanTotal(s: State): nat
    requires Valid(s)
  {
    match s.initialEmpty
    case None => 0
    case Some(e) => DistanceSum(s.binaryVal, e, s.n, |s.binaryVal|)
  }

  /** heuristic2: the loop over binary_val accumulating the distance of
      every '1' to divmod(initial_empty, n). */
  method Heuristic2(s: State) returns (distance: nat)
    requires Valid(s)
    ensures distance == ManhattanTotal(s)
  {
    if s.initialEmpty == None {
      return 0;
    }
    var e := s.initialEmpty.value;
    var emptyX, emptyY := e / s.n, e % s.n;
    distance := 0;
    for i := 0 to |s.binaryVal|
      invariant distance == DistanceSum(s.binaryVal, e, s.n, i)
    {
      if s.binaryVal[i] == '1' {
        var x, y := i / s.n, i % s.n;
        distance := distance + Abs(x - emptyX) + Abs(y - emptyY);
      }
    }
  }

  /** The distance sum is zero exactly when every peg is on cell e. */
  lemma {:induction false} DistanceSumZero(b: string, e: nat, n: nat, k: nat)
    requires n > 0 && k <= |b|
    ensures DistanceSum(b, e, n, k) == 0 <==> forall i :: 0 <= i < k && b[i] == '1' ==> i == e
    decreases k
  {
    if k > 0 {
      DistanceSumZero(b, e, n, k - 1);
      if b[k - 1] == '1' && k - 1 != e {
        if Distance(k - 1, e, n) == 0 {
          SameIndex(k - 1, e, n);
        }
      }
    }
  }

  /** Two indices with the same quotient and remainder are equal. */
  lemma SameIndex(i: nat, e: nat, n: nat)
    requires n > 0 && i / n == e / n && i % n == e % n
    ensures i == e
  {
    assert i == (i / n) * n + i % n;
    assert e == (e / n) * n + e % n;
  }

  /** heuristic2 is zero exactly when there is no initial empty cell or
      every peg stands on it. */
  lemma ManhattanZero(s: State)
    requires Valid(s)
    ensures ManhattanTotal(s) == 0 <==>
      s.initialEmpty.None? ||
      forall i :: 0 <= i < |s.binaryVal| && s.binaryVal[i] == '1' ==> i == s.initialEmpty.value
  {
    if s.initialEmpty.Some? {
      DistanceSumZero(s.binaryVal, s.initialEmpty.value, s.n, |s.binaryVal|);
    }
  }

  /** At a goal heuristic2 is zero: the one peg stands on the initial empty cell. */
  lemma GoalHasNoDistance(s: State)
    requires Valid(s) && Goal(s)
    ensures ManhattanTotal(s) == 0
  {
    var e := s.initialEmpty.value;
    forall i | 0 <= i < |s.binaryVal| && s.binaryVal[i] == '1'
      ensures i == e
    {
      GoalIff(s);
      if i != e {
        CountUpdate(s.binaryVal, i, '0', '1');
        CountUpdate(s.binaryVal[i := '0'], e, '0', '1');
      }
    }
    ManhattanZero(s);
  }

  /** heuristic3: weight 3 times the number of ones of bin(int(binary_val, 2)),
      plus heuristic2. */
  method Heuristic3(s: State) returns (h: nat)
    requires Valid(s)
    ensures h == 3 * PopCount(s.state) + ManhattanTotal(s)
  {
    var weight := 3;
    var pegs := Count(ToBinary(Value(s.binaryVal)), '1');
    var distance := Heuristic2(s);
    CountIsPopCount(ToBinary(Value(s.binaryVal)));
    h := pegs * weight + distance;
  }

  /** The peg count heuristic3 uses is the number of '1' digits of
      binary_val: the round trip through int and bin drops only leading
      zeros. */
  lemma PegCountRoundTrip(s: State)
    requires Valid(s)
    ensures Count(ToBinary(Value(s.binaryVal)), '1') == Pegs(s)
  {
    CountIsPopCount(ToBinary(Value(s.binaryVal)));
    CountIsPopCount(s.binaryVal);
  }

  /** At a goal heuristic3 is 3: one peg, no distance. */
  lemma GoalEstimate3(s: State)
    requires Valid(s) && Goal(s)
    ensures 3 * PopCount(s.state) + ManhattanTotal(s) == 3
  {
    PegsIsPopCount(s);
    GoalHasNoDistance(s);
  }

  /** Which heuristic an A* run uses: astar1, astar2 or astar3. */
  datatype HeuristicChoice = H1 | H2 | H3

  /** The value of the chosen heuristic at s. */
  function Estimate(choice: HeuristicChoice, s: State): nat
    requires Valid(s)
  {
    match choice
    case H1 => |LegalSet(s)|
    case H2 => ManhattanTotal(s)
    case H3 => 3 * PopCount(s.state) + ManhattanTotal(s)
  }

  /** Calls the chosen heuristic. */
  method Heuristic(choice: HeuristicChoice, s: State) returns (h: nat)
    requires Valid(s)
    ensures h == Estimate(choice, s)
  {
    match choice
    case H1 => h := Heuristic1(s);
    case H2 => h := Heuristic2(s);
    case H3 => h := Heuristic3(s);
  }
}
