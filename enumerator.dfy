/** State.applicableActions of classes.py: every legal (jumper, goner,
    newpos) triple of a state, found by a triple loop over the cells and
    listed in lexicographic order. */
module Enumerator {
  import opened Pegboard

  /** What the innermost loop body appends for one (jumper, goner, newpos). */
  function Candidate(s: State, j: nat, g: nat, p: nat): seq<Move>
    requires Valid(s) && j < Cells(s) && g < Cells(s) && p < Cells(s)
  {
    if j != g && j != p && g != p && Precondition(Move(j, g, p), s) then [Move(j, g, p)] else []
  }

  /** The moves the innermost loop has appended for jumper j and goner g
      once newpos has run through 0 .. k-1. */
  function NewposScan(s: State, j: nat, g: nat, k: nat): (r: seq<Move>)
    requires Valid(s) && j < Cells(s) && g < Cells(s) && k <= Cells(s)
    decreases k
  {
    if k == 0 then [] else NewposScan(s, j, g, k - 1) + Candidate(s, j, g, k - 1)
  }

  /** The moves appended for jumper j once goner has run through 0 .. k-1. */
  function GonerScan(s: State, j: nat, k: nat): (r: seq<Move>)
    requires Valid(s) && j < Cells(s) && k <= Cells(s)
    decreases k
  {
    if k == 0 then [] else GonerScan(s, j, k - 1) + NewposScan(s, j, k - 1, Cells(s))
  }

  /** The moves appended once jumper has run through 0 .. k-1. */
  function JumperScan(s: State, k: nat): (r: seq<Move>)
    requires Valid(s) && k <= Cells(s)
    decreases k
  {
    if k == 0 then [] else JumperScan(s, k - 1) + GonerScan(s, k - 1, Cells(s))
  }

  /** The list applicableActions returns. */
  function LegalMoves(s: State): seq<Move>
    requires Valid(s)
  {
    JumperScan(s, Cells(s))
  }

  /** applicableActions lists exactly the legal moves. */
  lemma LegalMovesExact(s: State)
    requires Valid(s)
    ensures forall a :: a in LegalMoves(s) <==> Legal(s, a)
  {
    JumperScanMembers(s, Cells(s));
  }

  /** Each listed move is legal. */
  lemma LegalMoveAt(s: State, i: nat)
    requires Valid(s) && i < |LegalMoves(s)|
    ensures Legal(s, LegalMoves(s)[i])
  {
    LegalMovesExact(s);
  }

  /** Each legal move is listed. */
  lemma LegalMoveListed(s: State, a: Move)
    requires Legal(s, a)
    ensures a in LegalMoves(s)
  {
    LegalMovesExact(s);
  }

  /** State.applicableActions: three nested loops over the cells, appending
      each distinct triple that satisfies the precondition. The innermost loop
      is the method LandingsFor. */
  method ApplicableActions(s: State) returns (actions: seq<Move>)
    requires Valid(s)
    ensures actions == LegalMoves(s)
  {
    actions := [];
    var cells := Cells(s);
    for jumper := 0 to cells
      invariant actions == JumperScan(s, jumper)
    {
      for goner := 0 to cells
        invariant actions == JumperScan(s, jumper) + GonerScan(s, jumper, goner)
      {
        var landings := LandingsFor(s, jumper, goner);
        Associative(JumperScan(s, jumper), GonerScan(s, jumper, goner), landings);
        actions := actions + landings;
      }
    }
  }

  /** The innermost loop of applicableActions: for a fixed jumper and goner,
      every newpos that makes a distinct triple satisfying the precondition,
      in increasing order. */
  method LandingsFor(s: State, jumper: nat, goner: nat) returns (found: seq<Move>)
    requires Valid(s) && jumper < Cells(s) && goner < Cells(s)
    ensures found == NewposScan(s, jumper, goner, Cells(s))
  {
    found := [];
    for newpos := 0 to Cells(s)
      invariant found == NewposScan(s, jumper, goner, newpos)
    {
      if jumper != goner && jumper != newpos && goner != newpos {
        var action := Move(jumper, goner, newpos);
        if Precondition(action, s) {
          found := found + [action];
        }
      }
    }
  }

  /** Regrouping the concatenation the loop builds; stated on its own so
      that the loop's proof sees only this instance. */
  lemma Associative(a: seq<Move>, b: seq<Move>, c: seq<Move>)
    ensures (a + b) + c == a + (b + c)
  {
  }

  lemma {:induction false} NewposScanMembers(s: State, j: nat, g: nat, k: nat)
    requires Valid(s) && j < Cells(s) && g < Cells(s) && k <= Cells(s)
    ensures forall a :: a in NewposScan(s, j, g, k) <==> a.jumper == j && a.goner == g && a.newpos < k && Legal(s, a)
    decreases k
  {
    if k > 0 {
      NewposScanMembers(s, j, g, k - 1);
      CandidateMembers(s, j, g, k - 1);
    }
  }

  /** The candidate list of one landing cell holds that move exactly when
      it is legal. */
  lemma CandidateMembers(s: State, j: nat, g: nat, p: nat)
    requires Valid(s) && j < Cells(s) && g < Cells(s) && p < Cells(s)
    ensures forall a :: a in Candidate(s, j, g, p) <==> a == Move(j, g, p) && Legal(s, a)
  {
  }

  lemma {:induction false} GonerScanMembers(s: State, j: nat, k: nat)
    requires Valid(s) && j < Cells(s) && k <= Cells(s)
    ensures forall a :: a in GonerScan(s, j, k) <==> a.jumper == j && a.goner < k && Legal(s, a)
    decreases k
  {
    if k > 0 {
      GonerScanMembers(s, j, k - 1);
      NewposScanMembers(s, j, k - 1, Cells(s));
    }
  }

  lemma {:induction false} JumperScanMembers(s: State, k: nat)
    requires Valid(s) && k <= Cells(s)
    ensures forall a :: a in JumperScan(s, k) <==> a.jumper < k && Legal(s, a)
    decreases k
  {
    if k > 0 {
      JumperScanMembers(s, k - 1);
      GonerScanMembers(s, k - 1, Cells(s));
    }
  }

  /** Lexicographic order on (jumper, goner, newpos). */
  predicate Before(a: Move, b: Move) {
    || a.jumper < b.jumper
    || (a.jumper == b.jumper && a.goner < b.goner)
    || (a.jumper == b.jumper && a.goner == b.goner && a.newpos < b.newpos)
  }

  /** Strictly increasing in lexicographic order, hence free of repeats. */
  predicate Increasing(q: seq<Move>) {
    forall i, k :: 0 <= i < k < |q| ==> Before(q[i], q[k])
  }

  lemma IncreasingConcat(p: seq<Move>, q: seq<Move>)
    requires Increasing(p) && Increasing(q)
    requires forall a, b :: a in p && b in q ==> Before(a, b)
    ensures Increasing(p + q)
  {
    forall i, k | 0 <= i < k < |p + q|
      ensures Before((p + q)[i], (p + q)[k])
    {
      if i < |p| && k >= |p| {
        assert (p + q)[i] in p && (p + q)[k] in q;
      }
    }
  }

  lemma {:induction false} NewposScanIncreasing(s: State, j: nat, g: nat, k: nat)
    requires Valid(s) && j < Cells(s) && g < Cells(s) && k <= Cells(s)
    ensures Increasing(NewposScan(s, j, g, k))
    ensures forall a :: a in NewposScan(s, j, g, k) ==> a.jumper == j && a.goner == g && a.newpos < k
    decreases k
  {
    if k > 0 {
      NewposScanIncreasing(s, j, g, k - 1);
      IncreasingConcat(NewposScan(s, j, g, k - 1), Candidate(s, j, g, k - 1));
    }
  }

  lemma {:induction false} GonerScanIncreasing(s: State, j: nat, k: nat)
    requires Valid(s) && j < Cells(s) && k <= Cells(s)
    ensures Increasing(GonerScan(s, j, k))
    ensures forall a :: a in GonerScan(s, j, k) ==> a.jumper == j && a.goner < k
    decreases k
  {
    if k > 0 {
      GonerScanIncreasing(s, j, k - 1);
      NewposScanIncreasing(s, j, k - 1, Cells(s));
      EarlierGonerBefore(GonerScan(s, j, k - 1), NewposScan(s, j, k - 1, Cells(s)), j, k - 1);
      IncreasingConcat(GonerScan(s, j, k - 1), NewposScan(s, j, k - 1, Cells(s)));
    }
  }

  /** Moves of one jumper with goners below g come before the moves of
      that jumper with goner g. */
  lemma EarlierGonerBefore(p: seq<Move>, q: seq<Move>, j: nat, g: nat)
    requires forall a :: a in p ==> a.jumper == j && a.goner < g
    requires forall b :: b in q ==> b.jumper == j && b.goner == g
    ensures forall a, b :: a in p && b in q ==> Before(a, b)
  {
  }

  lemma {:induction false} JumperScanIncreasing(s: State, k: nat)
    requires Valid(s) && k <= Cells(s)
    ensures Increasing(JumperScan(s, k))
    ensures forall a :: a in JumperScan(s, k) ==> a.jumper < k
    decreases k
  {
    if k > 0 {
      JumperScanIncreasing(s, k - 1);
      GonerScanIncreasing(s, k - 1, Cells(s));
      IncreasingConcat(JumperScan(s, k - 1), GonerScan(s, k - 1, Cells(s)));
    }
  }

  /** applicableActions lists the legal moves in strictly increasing
      lexicographic (jumper, goner, newpos) order, each once. */
  lemma LegalMovesIncreasing(s: State)
    requires Valid(s)
    ensures Increasing(LegalMoves(s))
  {
    JumperScanIncreasing(s, Cells(s));
  }

  lemma {:induction false} NewposScanLength(s: State, j: nat, g: nat, k: nat)
    requires Valid(s) && j < Cells(s) && g < Cells(s) && k <= Cells(s)
    ensures |NewposScan(s, j, g, k)| <= k
    decreases k
  {
    if k > 0 {
      NewposScanLength(s, j, g, k - 1);
    }
  }

  lemma {:induction false} GonerScanLength(s: State, j: nat, k: nat)
    requires Valid(s) && j < Cells(s) && k <= Cells(s)
    ensures |GonerScan(s, j, k)| <= k * Cells(s)
    decreases k
  {
    if k > 0 {
      GonerScanLength(s, j, k - 1);
      NewposScanLength(s, j, k - 1, Cells(s));
      MulStep(k, Cells(s));
    }
  }

  /** The nonlinear step of the two length bounds, kept out of their
      inductive proofs. */
  lemma MulStep(k: nat, c: nat)
    requires k > 0
    ensures (k - 1) * c + c == k * c
  {
  }

  lemma {:induction false} JumperScanLength(s: State, k: nat)
    requires Valid(s) && k <= Cells(s)
    ensures |JumperScan(s, k)| <= k * (Cells(s) * Cells(s))
    decreases k
  {
    if k > 0 {
      JumperScanLength(s, k - 1);
      GonerScanLength(s, k - 1, Cells(s));
      MulStep(k, Cells(s) * Cells(s));
    }
  }

  /** A state has at most N^3 legal moves, N the number of cells: one per
      triple of cells. */
  lemma LegalMovesBound(s: State)
    requires Valid(s)
    ensures |LegalMoves(s)| <= Cells(s) * (Cells(s) * Cells(s))
  {
    JumperScanLength(s, Cells(s));
  }

  /** No three cells of a grid of side at most 2 lie on a line. */
  lemma NoJumpLineOnSmallGrid(n: nat, a: Move)
    requires 0 < n <= 2 && a.jumper < n * n && a.goner < n * n && a.newpos < n * n
    ensures !JumpLine(n, a)
  {
    RowInRange(a.jumper, n);
    RowInRange(a.goner, n);
    RowInRange(a.newpos, n);
  }

  /** A board of side at most 2 has no legal move. */
  lemma NoMovesOnSmallBoards(s: State)
    requires Valid(s) && s.n <= 2
    ensures LegalMoves(s) == []
  {
    if LegalMoves(s) != [] {
      var a := LegalMoves(s)[0];
      LegalMoveAt(s, 0);
      LegalIsJumpLine(s, a);
      NoJumpLineOnSmallGrid(s.n, a);
    }
  }
}
