/** The board state and the jump move of classes.py: a State built from a
    non-negative integer, its two goal tests, the legality predicate of a move
    and the successor a move produces.

    Two index schemes meet here. Move indices are bit positions counted from
    the least significant bit (the precondition reverses the digit list, and
    the successor adds and subtracts 2^index), so cell p lives at string index
    N-1-p of binaryVal, N = n*n. The initial empty cell and the goal test use
    string indices, counted from the most significant digit. */
module Pegboard {
  import opened Bits

  datatype Option<T> = None | Some(value: T)

  /** State: the integer, its zero-padded digit string, the side n of the
      square grid, and the string index of the first empty cell of the root. */
  datatype State = State(state: nat, binaryVal: string, n: nat, initialEmpty: Option<nat>)

  /** Action([jumper, goner, newpos]): the peg at jumper jumps over goner and
      lands on newpos (bit positions). */
  datatype Move = Move(jumper: nat, goner: nat, newpos: nat)

  /** The number of cells of the board. */
  function Cells(s: State): nat {
    s.n * s.n
  }

  /** binaryVal is the n*n-digit expansion of state, and the initial empty
      cell, when there is one, is a cell of the board. */
  predicate Valid(s: State) {
    && s.n >= 1
    && |s.binaryVal| == Cells(s)
    && IsBits(s.binaryVal)
    && Value(s.binaryVal) == s.state
    && (s.initialEmpty.Some? ==> s.initialEmpty.value < Cells(s))
  }

  /** The number of pegs (binary_val.count('1')). */
  function Pegs(s: State): nat {
    Count(s.binaryVal, '1')
  }

  /** The string index of the digit for bit position p. */
  function StringIndex(s: State, p: nat): nat
    requires p < Cells(s)
  {
    Cells(s) - 1 - p
  }

  /** xo_list after the reverse: entry p is 1 when bit position p holds a peg. */
  function Occupancy(s: State): (xo: seq<int>)
    ensures |xo| == |s.binaryVal|
  {
    var b := s.binaryVal;
    seq(|b|, i requires 0 <= i < |b| => if b[|b| - 1 - i] == '0' then 0 else 1)
  }

  /** int(x ** 0.5) on a non-negative integer: its integer square root. */
  function FloorSqrt(x: nat): (r: nat)
    ensures r * r <= x < (r + 1) * (r + 1)
  {
    SqrtFrom(x, 0)
  }

  function SqrtFrom(x: nat, r: nat): (q: nat)
    requires r * r <= x
    ensures q * q <= x < (q + 1) * (q + 1)
    decreases x - r
  {
    if (r + 1) * (r + 1) > x then r
    else
      assert r + 1 <= (r + 1) * (r + 1);
      SqrtFrom(x, r + 1)
  }

  /** State.__init__: n is the least side whose square holds every digit of
      bin(seed), binaryVal is bin(seed) zero-padded to n*n digits, and
      initialEmpty is the string index of its first '0', if any. */
  method NewState(seed: nat) returns (s: State)
    ensures Valid(s) && s.state == seed
    ensures s.n * s.n >= |ToBinary(seed)| > (s.n - 1) * (s.n - 1)
    ensures s.binaryVal == ZFill(ToBinary(seed), s.n * s.n)
    ensures s.initialEmpty.None? <==> '0' !in s.binaryVal
    ensures s.initialEmpty.Some? ==>
      s.binaryVal[s.initialEmpty.value] == '0' && '0' !in s.binaryVal[..s.initialEmpty.value]
  {
    var binaryVal := ToBinary(seed);
    var n := FloorSqrt(|binaryVal|);
    CorrectedSide(|binaryVal|, n);
    if n * n < |binaryVal| {
      n := n + 1;
    }
    ZFillFacts(binaryVal, n * n);
    binaryVal := ZFill(binaryVal, n * n);
    var initialEmpty := if '0' in binaryVal then Some(Find(binaryVal, '0') as nat) else None;
    s := State(seed, binaryVal, n, initialEmpty);
  }

  /** Rounding the integer square root up when its square falls short gives
      the least side whose square is at least the length. */
  lemma CorrectedSide(len: nat, r: nat)
    requires len >= 1 && r * r <= len < (r + 1) * (r + 1)
    ensures var n := if r * r < len then r + 1 else r;
      n >= 1 && n * n >= len > (n - 1) * (n - 1)
  {
    if r * r == len {
      assert r != 0;
      assert (r - 1) * (r - 1) == r * r - 2 * r + 1;
    }
  }

  /** goal_remaining: exactly one peg is left, anywhere. */
  predicate GoalRemaining(s: State) {
    Count(s.binaryVal, '1') == 1
  }

  /** goal: exactly one peg is left and the first '1' sits at the initial
      empty string index. */
  predicate Goal(s: State) {
    Count(s.binaryVal, '1') == 1 && s.initialEmpty.Some? && Find(s.binaryVal, '1') == s.initialEmpty.value
  }

  function Abs(x: int): nat {
    if x < 0 then -x else x
  }

  /** divmod(p, n): row and column of bit position p. */
  function Row(p: nat, n: nat): int requires n > 0 { p / n }
  function Col(p: nat, n: nat): int requires n > 0 { p % n }

  /** Action.precondition: jumper and goner hold pegs, newpos is empty, and
      the three cells are consecutive along a row, a column or a diagonal. */
  predicate Precondition(a: Move, s: State)
    requires Valid(s)
    requires a.jumper < Cells(s) && a.goner < Cells(s) && a.newpos < Cells(s)
  {
    var xo := Occupancy(s);
    if xo[a.jumper] == 1 && xo[a.goner] == 1 && xo[a.newpos] == 0 then
      var n := s.n;
      var (jr, jc) := (Row(a.jumper, n), Col(a.jumper, n));
      var (gr, gc) := (Row(a.goner, n), Col(a.goner, n));
      var (pr, pc) := (Row(a.newpos, n), Col(a.newpos, n));
      if jr == gr && gr == pr && Abs(jc - gc) == 1 && Abs(gc - pc) == 1 then true
      else if jc == gc && gc == pc && Abs(jr - gr) == 1 && Abs(gr - pr) == 1 then true
      else if Abs(jr - gr) == 1 && Abs(jc - gc) == 1 && Abs(gr - pr) == 1 && Abs(gc - pc) == 1
              && jr != pr && jc != pc then true
      else false
    else false
  }

  /** A move the enumerator accepts: three distinct cells of the board that
      satisfy the precondition. */
  predicate Legal(s: State, a: Move) {
    && Valid(s)
    && a.jumper < Cells(s) && a.goner < Cells(s) && a.newpos < Cells(s)
    && a.jumper != a.goner && a.jumper != a.newpos && a.goner != a.newpos
    && Precondition(a, s)
  }

  /** Bit position p holds a peg. */
  predicate Occupied(s: State, p: nat)
    requires Valid(s) && p < Cells(s)
  {
    s.binaryVal[StringIndex(s, p)] == '1'
  }

  /** Reference geometry of a jump: goner is one of the eight neighbours of
      jumper and newpos is the next cell on in the same direction, so that
      (row, col) of newpos is 2*goner - jumper componentwise. */
  predicate JumpLine(n: nat, a: Move)
    requires n > 0
  {
    var dr := Row(a.goner, n) - Row(a.jumper, n);
    var dc := Col(a.goner, n) - Col(a.jumper, n);
    && -1 <= dr <= 1 && -1 <= dc <= 1 && (dr != 0 || dc != 0)
    && Row(a.newpos, n) == Row(a.goner, n) + dr
    && Col(a.newpos, n) == Col(a.goner, n) + dc
  }

  /** Bit positions with the same row and column are the same position. */
  lemma SameCell(p: nat, q: nat, n: nat)
    requires n > 0 && Row(p, n) == Row(q, n) && Col(p, n) == Col(q, n)
    ensures p == q
  {
    assert p == Row(p, n) * n + Col(p, n);
    assert q == Row(q, n) * n + Col(q, n);
  }

  /** The precondition is exactly "two pegs then a hole along a straight line
      of three cells". */
  lemma LegalIsJumpLine(s: State, a: Move)
    requires Valid(s)
    requires a.jumper < Cells(s) && a.goner < Cells(s) && a.newpos < Cells(s)
    ensures Legal(s, a) <==>
      Occupied(s, a.jumper) && Occupied(s, a.goner) && !Occupied(s, a.newpos) && JumpLine(s.n, a)
  {
    var n := s.n;
    var xo := Occupancy(s);
    assert xo[a.jumper] == 1 <==> Occupied(s, a.jumper);
    assert xo[a.goner] == 1 <==> Occupied(s, a.goner);
    assert xo[a.newpos] == 0 <==> !Occupied(s, a.newpos);
    if Occupied(s, a.jumper) && Occupied(s, a.goner) && !Occupied(s, a.newpos) && JumpLine(n, a) {
      if a.jumper == a.goner { SameCell(a.jumper, a.goner, n); }
      if a.goner == a.newpos { SameCell(a.goner, a.newpos, n); }
    }
  }

  /** The bit-string effect of a move: jumper and goner emptied, newpos
      filled; size and initial empty cell carried over. */
  function Jump(s: State, a: Move): (t: State)
    requires Legal(s, a)
    ensures Valid(t) && t.n == s.n && t.initialEmpty == s.initialEmpty
    ensures Pegs(t) + 1 == Pegs(s)
  {
    var b := s.binaryVal;
    var (j, g, p) := (StringIndex(s, a.jumper), StringIndex(s, a.goner), StringIndex(s, a.newpos));
    var b3 := b[j := '0'][g := '0'][p := '1'];
    assert Occupancy(s)[a.jumper] == 1 && Occupancy(s)[a.goner] == 1 && Occupancy(s)[a.newpos] == 0;
    ThreeDigitsCount(b, j, g, p);
    State(Value(b3), b3, s.n, s.initialEmpty)
  }

  /** The move changes the integer by +2^newpos - 2^jumper - 2^goner. */
  lemma JumpArithmetic(s: State, a: Move)
    requires Legal(s, a)
    ensures Jump(s, a).state + Pow2(a.jumper) + Pow2(a.goner) == s.state + Pow2(a.newpos)
  {
    var b := s.binaryVal;
    var (j, g, p) := (StringIndex(s, a.jumper), StringIndex(s, a.goner), StringIndex(s, a.newpos));
    assert Occupancy(s)[a.jumper] == 1 && Occupancy(s)[a.goner] == 1 && Occupancy(s)[a.newpos] == 0;
    ThreeDigits(b, j, g, p, a.jumper, a.goner, a.newpos);
  }

  /** Only the three cells of the move change: jumper and goner become
      empty, newpos gets the peg, and every other cell keeps its content. */
  lemma JumpCells(s: State, a: Move, q: nat)
    requires Legal(s, a) && q < Cells(s)
    ensures Occupied(Jump(s, a), q) <==>
      (q == a.newpos || (q != a.jumper && q != a.goner && Occupied(s, q)))
  {
  }

  /** Action.applyState: copy the state, then recompute the integer by
      arithmetic and the digit string by bin and zfill. */
  method ApplyState(a: Move, s: State) returns (newState: State)
    requires Legal(s, a)
    ensures newState == Jump(s, a)
  {
    ghost var t := Jump(s, a);
    JumpArithmetic(s, a);
    newState := s;
    newState := newState.(state := s.state + Pow2(a.newpos) - Pow2(a.jumper) - Pow2(a.goner));
    assert newState.state == t.state == Value(t.binaryVal);
    newState := newState.(binaryVal := ToBinary(newState.state));
    newState := newState.(binaryVal := ZFill(newState.binaryVal, newState.n * newState.n));
    Canonical(t.binaryVal);
    assert |t.binaryVal| == newState.n * newState.n;
  }

  /** goal() holds exactly when one peg is left and it stands on the initial
      empty cell; so it implies goal_remaining(), it never holds without an
      initial empty cell, and it never holds of a freshly built state, whose
      initial empty cell is empty. */
  lemma GoalIff(s: State)
    requires Valid(s)
    ensures Goal(s) <==>
      GoalRemaining(s) && s.initialEmpty.Some? && s.binaryVal[s.initialEmpty.value] == '1'
  {
    if GoalRemaining(s) && s.initialEmpty.Some? && s.binaryVal[s.initialEmpty.value] == '1' {
      OnlyOneFound(s.binaryVal, s.initialEmpty.value);
    }
  }

  /** In a string with a single '1', find('1') is that position. */
  lemma {:induction false} OnlyOneFound(b: string, k: nat)
    requires k < |b| && b[k] == '1' && Count(b, '1') == 1
    ensures Find(b, '1') == k
  {
    var f := Find(b, '1');
    if f != k {
      assert f >= 0;
      CountUpdate(b, k, '0', '1');
      CountUpdate(b[k := '0'], f, '0', '1');
    }
  }

  /** The peg count of a valid state is the popcount of its integer. */
  lemma PegsIsPopCount(s: State)
    requires Valid(s)
    ensures Pegs(s) == PopCount(s.state)
  {
    CountIsPopCount(s.binaryVal);
  }

  /** The precondition reads bit position p as the bit of weight 2^p of the
      integer. */
  /** Entry p of the reversed xo_list is 1 exactly when bit position p
      holds a peg. */
  lemma OccupancyIsOccupied(s: State, p: nat)
    requires Valid(s) && p < Cells(s)
    ensures |Occupancy(s)| == Cells(s)
    ensures Occupancy(s)[p] == 1 <==> Occupied(s, p)
  {
  }

  lemma OccupiedIsBit(s: State, p: nat)
    requires Valid(s) && p < Cells(s)
    ensures Occupied(s, p) <==> TestBit(s.state, p)
  {
    DigitIsBit(s.binaryVal, p);
  }

  /** A legal move needs two pegs, so a board with at most one peg has none. */
  lemma LegalNeedsTwoPegs(s: State, a: Move)
    requires Legal(s, a)
    ensures Pegs(s) >= 2
  {
    var t := Jump(s, a);
    assert Pegs(t) >= 0;
    if Pegs(s) == 1 {
      assert Occupancy(s)[a.newpos] == 0;
      CountUpdate(t.binaryVal, StringIndex(s, a.newpos), '0', '1');
    }
  }

  /** The mirror p -> N-1-p between the two index schemes is the 180-degree
      rotation of the grid. */
  lemma MirrorIsRotation(n: nat, p: nat)
    requires n > 0 && p < n * n
    ensures Row(n * n - 1 - p, n) == n - 1 - Row(p, n)
    ensures Col(n * n - 1 - p, n) == n - 1 - Col(p, n)
  {
    var r, c := p / n, p % n;
    assert p == r * n + c;
    RowInRange(p, n);
    var q := n * n - 1 - p;
    assert q == (n - 1 - r) * n + (n - 1 - c);
    DivModUnique(q, n, n - 1 - r, n - 1 - c);
  }

  /** Every cell of the board has a row inside the grid. */
  lemma RowInRange(p: nat, n: nat)
    requires n > 0 && p < n * n
    ensures 0 <= Row(p, n) < n && 0 <= Col(p, n) < n
  {
    var r := p / n;
    assert p == r * n + p % n;
    if r >= n {
      MulMono(n, r, n);
    }
  }

  lemma DivModUnique(x: nat, n: nat, a: nat, b: nat)
    requires n > 0 && b < n && x == a * n + b
    ensures x / n == a && x % n == b
  {
    var q, r := x / n, x % n;
    assert x == q * n + r && 0 <= r < n;
    if q > a {
      MulMono(a + 1, q, n);
    } else if q < a {
      MulMono(q + 1, a, n);
    }
  }

  lemma {:induction false} MulMono(a: nat, b: nat, n: nat)
    requires a <= b
    ensures a * n <= b * n
    decreases b - a
  {
    if a < b {
      MulMono(a + 1, b, n);
      assert (a + 1) * n == a * n + n;
    }
  }

  /** Reading a move in string indices instead of bit positions rotates it by
      180 degrees, which maps jump lines to jump lines. */
  lemma RotationKeepsJumpLines(n: nat, a: Move)
    requires n > 0 && a.jumper < n * n && a.goner < n * n && a.newpos < n * n
    ensures JumpLine(n, a) <==>
      JumpLine(n, Move(n * n - 1 - a.jumper, n * n - 1 - a.goner, n * n - 1 - a.newpos))
  {
    MirrorIsRotation(n, a.jumper);
    MirrorIsRotation(n, a.goner);
    MirrorIsRotation(n, a.newpos);
  }
}
