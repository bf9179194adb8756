/** flailWildly of main.py: a random walk that never backtracks. At each
    state it picks one of the applicable actions at random, applies it, and
    stops with success when the successor has one peg left, or with failure
    when a state has no applicable action. The random index is supplied by
    the caller as the next element of a list of picks. */
module RandomWalk {
  import opened Bits
  import opened Pegboard
  import opened Enumerator
  import opened Paths

  /** What the walk reports in place of printing: success or failure, and
      the (action, state) pairs it went through. */
  datatype Walk = Walk(solved: bool, steps: seq<Step>)

  /** Every pick the walk consumes is an index into the action list of the
      state it is used at, as random.randint(0, len(posActs) - 1) is. */
  predicate PicksFit(s: State, picks: seq<nat>)
    requires Valid(s)
    decreases Pegs(s)
  {
    var moves := LegalMoves(s);
    moves == [] ||
      (&& picks != []
       && picks[0] < |moves|
       && (LegalMoveAt(s, picks[0]);
           var t := Jump(s, moves[picks[0]]);
           GoalRemaining(t) || PicksFit(t, picks[1..])))
  }

  /** flailWildly(state), with picks[0] as the random index of the first
      choice, picks[1] as the second, and so on. The walk is a path from
      s; it succeeds only after at least one move, at a state with one peg;
      it fails only at a state without applicable actions; the first move
      is the picked entry of the action list. */
  function FlailWildly(s: State, picks: seq<nat>): (r: Walk)
    requires Valid(s) && PicksFit(s, picks)
    ensures Chain(s, r.steps, Final(s, r.steps))
    ensures r.solved ==> r.steps != [] && GoalRemaining(Final(s, r.steps))
    ensures Valid(Final(s, r.steps))
    ensures !r.solved ==> LegalMoves(Final(s, r.steps)) == []
    ensures forall i :: 0 <= i < |r.steps| - 1 ==> !GoalRemaining(r.steps[i].state)
    ensures r.steps != [] ==>
      picks != [] && picks[0] < |LegalMoves(s)| && r.steps[0].action == Some(LegalMoves(s)[picks[0]])
    ensures r.steps != [] ==> |r.steps| < Pegs(s)
    decreases Pegs(s)
  {
    var posActs := LegalMoves(s);
    if posActs == [] then Walk(false, [])
    else
      LegalMoveAt(s, picks[0]);
      LegalNeedsTwoPegs(s, posActs[picks[0]]);
      var currAct := posActs[picks[0]];
      var newState := Jump(s, currAct);
      var first := Step(Some(currAct), newState);
      if GoalRemaining(newState) then
        ChainPrepend(s, currAct, [], newState);
        Walk(true, [first])
      else
        var rest := FlailWildly(newState, picks[1..]);
        ChainPrepend(s, currAct, rest.steps, Final(newState, rest.steps));
        FinalPrepend(s, first, rest.steps);
        InteriorPrepend(first, rest.steps);
        Walk(rest.solved, [first] + rest.steps)
  }

  /** Putting a pair in front of a path ending at a later pair keeps its end. */
  lemma FinalPrepend(s: State, first: Step, steps: seq<Step>)
    ensures Final(s, [first] + steps) == Final(first.state, steps)
  {
  }

  /** Putting a state that is not a goal in front of a path whose interior
      holds no goal keeps the interior free of goals. */
  lemma InteriorPrepend(first: Step, steps: seq<Step>)
    requires !GoalRemaining(first.state)
    requires forall i :: 0 <= i < |steps| - 1 ==> !GoalRemaining(steps[i].state)
    ensures forall i :: 0 <= i < |[first] + steps| - 1 ==> !GoalRemaining(([first] + steps)[i].state)
  {
    forall i | 0 <= i < |[first] + steps| - 1
      ensures !GoalRemaining(([first] + steps)[i].state)
    {
      if i > 0 {
        assert ([first] + steps)[i] == steps[i - 1];
      }
    }
  }

  /** A state without applicable actions ends the walk at once, with
      failure and no move applied. */
  lemma StuckFails(s: State, picks: seq<nat>)
    requires Valid(s) && LegalMoves(s) == []
    ensures PicksFit(s, picks) && FlailWildly(s, picks) == Walk(false, [])
  {
  }

  /** The walk applies one move per step, each removing a peg: it stops
      within popcount(s) - 1 steps, and after exactly that many when it
      succeeds. */
  lemma WalkLength(s: State, picks: seq<nat>)
    requires Valid(s) && PicksFit(s, picks)
    ensures var r := FlailWildly(s, picks);
      && |r.steps| + Pegs(Final(s, r.steps)) == Pegs(s)
      && (r.solved ==> |r.steps| + 1 == Pegs(s))
      && (Pegs(s) >= 1 ==> |r.steps| < Pegs(s))
  {
    var r := FlailWildly(s, picks);
    ChainLength(s, r.steps, Final(s, r.steps));
  }

  /** The root is never tested for success: a root with one peg, which has
      no applicable action, ends in failure. */
  lemma OnePegRootFails(s: State, picks: seq<nat>)
    requires Valid(s) && Pegs(s) == 1
    ensures PicksFit(s, picks) && !FlailWildly(s, picks).solved
  {
    AtMostOnePegNoMoves(s);
  }

  /** A board with at most one peg has no legal move. */
  lemma AtMostOnePegNoMoves(t: State)
    requires Valid(t) && Pegs(t) <= 1
    ensures LegalMoves(t) == []
  {
    if LegalMoves(t) != [] {
      LegalMoveAt(t, 0);
      LegalNeedsTwoPegs(t, LegalMoves(t)[0]);
    }
  }
}
