/**
 * The convergence controller of cal/emto-cpa.py: the equation-of-state pass
 * is accepted when its fit is good enough and its optimum Wigner-Seitz radius
 * lies in the tested range, and is otherwise stopped or repeated on a new
 * five-point range centred on the optimum. The pass itself (input files, job
 * submission, the equation-of-state fit) is the function `eos` from a range to
 * the fitted values; floats are idealised as reals.
 */
module Convergence {

  /** The smallest accepted R-squared of the equation-of-state fit. */
  const MinRSquared: real := 0.9
  /** Spacing of a refined range. */
  const Step: real := 0.01
  /** Points in a refined range. */
  const RefinedPoints: nat := 5

  /** The scalars the controller reads from the fit: R-squared and the optimum radius. */
  datatype FitResult = FitResult(rSquared: real, sws0: real)

  /** is_within_range: both bounds inclusive. */
  predicate IsWithinRange(num: real, minNum: real, maxNum: real) {
    num >= minNum && num <= maxNum
  }

  /** `sws0 + np.arange(-2, 3) * 0.01`, of which the first five values are kept. */
  function RefinedRange(centre: real): (r: seq<real>)
    ensures |r| == RefinedPoints && r[2] == centre
    ensures forall k :: 0 <= k < |r| - 1 ==> r[k + 1] - r[k] == Step
    ensures forall i, j :: 0 <= i < j < |r| ==> r[i] < r[j]
  {
    var values := seq(5, k requires 0 <= k < 5 => centre + (k - 2) as real * Step);
    values[..RefinedPoints]
  }

  /** What one pass leads to. */
  datatype Verdict = PoorFit | EmptyRange | Accepted | Refine(next: seq<real>)

  /**
   * The decision after a pass: a fit with R-squared below 0.9 stops the run
   * before any range check; otherwise the optimum is accepted when it lies
   * between the first and last tested radius, bounds included, and a new
   * range centred on it is tried when not. An empty range raises IndexError
   * in the source; here it is the verdict EmptyRange.
   */
  function Assess(fit: FitResult, range: seq<real>): (v: Verdict)
    ensures v == PoorFit <==> fit.rSquared < MinRSquared
    ensures v == EmptyRange <==> fit.rSquared >= MinRSquared && range == []
    ensures v == Accepted <==>
      fit.rSquared >= MinRSquared && range != [] && range[0] <= fit.sws0 <= range[|range| - 1]
    ensures v.Refine? ==> v.next == RefinedRange(fit.sws0)
  {
    if fit.rSquared < MinRSquared then PoorFit
    else if |range| == 0 then EmptyRange
    else if IsWithinRange(fit.sws0, range[0], range[|range| - 1]) then Accepted
    else Refine(RefinedRange(fit.sws0))
  }

  /** A refined range brackets its centre, so a pass that finds the same optimum is accepted. */
  lemma RefinedRangeAcceptsCentre(fit: FitResult)
    requires fit.rSquared >= MinRSquared
    ensures Assess(fit, RefinedRange(fit.sws0)) == Accepted
  {
    var r := RefinedRange(fit.sws0);
    assert r[0] < r[2] < r[4];
  }

  /** The two worked cases: 2.55 inside [2.50 .. 2.70] is accepted; 2.72 is refined to [2.70 .. 2.74]. */
  lemma AssessExamples()
    ensures Assess(FitResult(0.95, 2.55), [2.50, 2.55, 2.60, 2.65, 2.70]) == Accepted
    ensures Assess(FitResult(0.95, 2.72), [2.50, 2.55, 2.60, 2.65, 2.70])
      == Refine([2.70, 2.71, 2.72, 2.73, 2.74])
    ensures Assess(FitResult(0.85, 2.55), [2.50, 2.55, 2.60, 2.65, 2.70]) == PoorFit
  {
    var r := RefinedRange(2.72);
    assert r[0] == 2.70 && r[1] == 2.71 && r[3] == 2.73 && r[4] == 2.74;
    assert r == [2.70, 2.71, 2.72, 2.73, 2.74];
  }

  /** How the controller ends. `passes` counts the passes run, the last included. */
  datatype Outcome =
    | Converged(fit: FitResult, range: seq<real>, passes: nat)
    | StoppedPoorFit(fit: FitResult, passes: nat)
    | StoppedEmptyRange(passes: nat)
    | OutOfPasses(range: seq<real>)

  /** The accept/refine loop with at most `budget` further passes, `done` passes having run. */
  function Run(eos: seq<real> -> FitResult, range: seq<real>, budget: nat, done: nat): Outcome
    decreases budget
  {
    if budget == 0 then OutOfPasses(range)
    else
      var fit := eos(range);
      match Assess(fit, range)
      case PoorFit => StoppedPoorFit(fit, done + 1)
      case EmptyRange => StoppedEmptyRange(done + 1)
      case Accepted => Converged(fit, range, done + 1)
      case Refine(next) => Run(eos, next, budget - 1, done + 1)
  }

  /**
   * The driver loop (`while True` around the pass): the range is reassigned
   * on every refinement. The source has no bound on the number of passes;
   * here it is `maxPasses`.
   */
  method Converge(eos: seq<real> -> FitResult, initial: seq<real>, maxPasses: nat) returns (outcome: Outcome)
    ensures outcome == Run(eos, initial, maxPasses, 0)
  {
    var swsRange := initial;
    var pass := 0;
    while pass < maxPasses
      invariant pass <= maxPasses
      invariant Run(eos, swsRange, maxPasses - pass, pass) == Run(eos, initial, maxPasses, 0)
    {
      var fit := eos(swsRange);
      var verdict := Assess(fit, swsRange);
      match verdict
      case PoorFit => return StoppedPoorFit(fit, pass + 1);
      case EmptyRange => return StoppedEmptyRange(pass + 1);
      case Accepted => return Converged(fit, swsRange, pass + 1);
      case Refine(next) => swsRange := next;
      pass := pass + 1;
    }
    return OutOfPasses(swsRange);
  }

  /**
   * An accepted result is the fit of the range the last pass tested: its
   * R-squared is at least 0.9 and its optimum lies within that range's bounds.
   * That range is the starting one, when the first pass is accepted, or a
   * refined range. The pass count stays within the budget.
   */
  lemma {:induction false} ConvergedIsSound(eos: seq<real> -> FitResult, range: seq<real>, budget: nat, done: nat)
    requires Run(eos, range, budget, done).Converged?
    ensures var o := Run(eos, range, budget, done);
      && o.fit == eos(o.range)
      && o.fit.rSquared >= MinRSquared
      && o.range != [] && o.range[0] <= o.fit.sws0 <= o.range[|o.range| - 1]
      && done < o.passes <= done + budget
      && (o.passes == done + 1 ==> o.range == range)
      && (o.passes > done + 1 ==> |o.range| == RefinedPoints && o.range == RefinedRange(o.range[2]))
    decreases budget
  {
    var fit := eos(range);
    match Assess(fit, range)
    case Accepted =>
    case Refine(next) =>
      ConvergedIsSound(eos, next, budget - 1, done + 1);
      var o := Run(eos, next, budget - 1, done + 1);
      if o.passes == done + 2 {
        assert o.range == next == RefinedRange(fit.sws0);
      }
  }

  /**
   * A good fit outside the starting range, followed on the refined range by
   * a good fit within two steps of the first optimum, converges on the
   * second pass.
   */
  lemma ConvergesAfterOneRefinement(eos: seq<real> -> FitResult, initial: seq<real>, maxPasses: nat)
    requires maxPasses >= 2
    requires Assess(eos(initial), initial).Refine?
    requires var c := eos(initial).sws0; var second := eos(RefinedRange(c));
      second.rSquared >= MinRSquared && c - 2.0 * Step <= second.sws0 <= c + 2.0 * Step
    ensures Run(eos, initial, maxPasses, 0) == Converged(eos(RefinedRange(eos(initial).sws0)), RefinedRange(eos(initial).sws0), 2)
  {
    var c := eos(initial).sws0;
    var r := RefinedRange(c);
    assert r[0] == c - 2.0 * Step && r[4] == c + 2.0 * Step;
    assert Assess(eos(r), r) == Accepted;
  }
}
