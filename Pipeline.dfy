/**
 * `Pipeline::through` and `Pipeline::throughStages`: the carried value is
 * handed to the first stage, its output to the second, and so on; the last
 * output is the result.
 *
 * A stage list is a finite `seq` of unary functions over one carried type.
 * Stages that may throw are modelled separately, by stages returning a
 * `Result`: an `Err` from stage k is the exception stage k throws.
 */
module Pipeline {
  import opened Wrappers

  // ---------------------------------------------------------------------
  // Specification: the left fold and the values the stages receive
  // ---------------------------------------------------------------------

  /** The value `through(passable, ...stages)` returns: a left fold. */
  function Fold<T>(passable: T, stages: seq<T -> T>): T
    decreases |stages|
  {
    if stages == [] then passable else Fold(stages[0](passable), stages[1..])
  }

  /**
   * `Nested(v, [s1, ..., sn]) == sn(...s2(s1(v))...)`: the composition
   * written from the outside in, as an independent reference for `Fold`.
   */
  function Nested<T>(passable: T, stages: seq<T -> T>): T
    decreases |stages|
  {
    if stages == [] then passable
    else stages[|stages| - 1](Nested(passable, stages[..|stages| - 1]))
  }

  /** The argument each stage is called with, in calling order. */
  function Inputs<T>(passable: T, stages: seq<T -> T>): (received: seq<T>)
    ensures |received| == |stages|
    decreases |stages|
  {
    if stages == [] then [] else [passable] + Inputs(stages[0](passable), stages[1..])
  }

  /**
   * Each stage runs once: the first receives `passable`, every later stage
   * receives the previous stage's output, and the last output is the result.
   */
  lemma {:induction false} StageReceivesPreviousOutput<T>(passable: T, stages: seq<T -> T>, i: nat)
    requires i < |stages|
    ensures Inputs(passable, stages)[i] ==
              if i == 0 then passable else stages[i - 1](Inputs(passable, stages)[i - 1])
    ensures i == |stages| - 1 ==> Fold(passable, stages) == stages[i](Inputs(passable, stages)[i])
    decreases i
  {
    if i > 0 {
      StageReceivesPreviousOutput(stages[0](passable), stages[1..], i - 1);
      if i > 1 {
        assert stages[1..][i - 2] == stages[i - 1];
      }
    }
  }

  // ---------------------------------------------------------------------
  // Laws of the fold
  // ---------------------------------------------------------------------

  /** With zero stages the value comes back unchanged. */
  lemma NoStagesIsIdentity<T>(passable: T)
    ensures Fold(passable, []) == passable
  {
  }

  /** Splitting law: running `s ++ t` is running `s`, then `t` on its output. */
  lemma {:induction false} FoldSplit<T>(passable: T, s: seq<T -> T>, t: seq<T -> T>)
    ensures Fold(passable, s + t) == Fold(Fold(passable, s), t)
    decreases |s|
  {
    if s == [] {
      assert s + t == t;
    } else {
      assert (s + t)[0] == s[0];
      assert (s + t)[1..] == s[1..] + t;
      FoldSplit(s[0](passable), s[1..], t);
    }
  }

  /** Appending a stage applies it to the previous result. */
  lemma {:induction false} FoldSnoc<T>(passable: T, s: seq<T -> T>, last: T -> T)
    ensures Fold(passable, s + [last]) == last(Fold(passable, s))
  {
    FoldSplit(passable, s, [last]);
    assert [last][1..] == [];
  }

  /** `through(v, s1, ..., sn) == sn(...s2(s1(v))...)`. */
  lemma {:induction false} FoldIsNested<T>(passable: T, stages: seq<T -> T>)
    ensures Fold(passable, stages) == Nested(passable, stages)
    decreases |stages|
  {
    if stages != [] {
      var init, last := stages[..|stages| - 1], stages[|stages| - 1];
      assert stages == init + [last];
      FoldIsNested(passable, init);
      FoldSnoc(passable, init, last);
    }
  }

  // ---------------------------------------------------------------------
  // The operations
  // ---------------------------------------------------------------------

  /**
   * `Pipeline::through`: a loop that reassigns the carried value once per
   * stage. `received` records, in order, the argument of every stage call.
   */
  method Through<T>(passable: T, stages: seq<T -> T>) returns (r: T, ghost received: seq<T>)
    ensures r == Fold(passable, stages)
    ensures received == Inputs(passable, stages)
  {
    r := passable;
    received := [];
    var i := 0;
    while i < |stages|
      invariant 0 <= i <= |stages|
      invariant Fold(r, stages[i..]) == Fold(passable, stages)
      invariant received + Inputs(r, stages[i..]) == Inputs(passable, stages)
    {
      assert stages[i..][0] == stages[i] && stages[i..][1..] == stages[i + 1..];
      assert Fold(r, stages[i..]) == Fold(stages[i](r), stages[i + 1..]);
      received := received + [r];
      r := stages[i](r);
      i := i + 1;
    }
  }

  /** `Pipeline::throughStages`: the stage collection is spread into `through`. */
  method ThroughStages<T>(passable: T, stages: seq<T -> T>) returns (r: T)
    ensures r == Fold(passable, stages)
  {
    ghost var received;
    r, received := Through(passable, stages);
  }

  // ---------------------------------------------------------------------
  // Fail-fast: stages that may throw
  // ---------------------------------------------------------------------

  /** The outcome of `through` when a stage may throw: the first `Err` wins. */
  function FallibleFold<T, E>(passable: T, stages: seq<T -> Result<T, E>>): Result<T, E>
    decreases |stages|
  {
    if stages == [] then Ok(passable)
    else match stages[0](passable)
      case Ok(next) => FallibleFold(next, stages[1..])
      case Err(e) => Err(e)
  }

  /**
   * The arguments of the stage calls that actually happen. Every call but
   * the last succeeded and fed the next one; a failure is the last call made,
   * and its error is the pipeline's error; on success every stage ran.
   */
  function FallibleInputs<T, E>(passable: T, stages: seq<T -> Result<T, E>>): (received: seq<T>)
    ensures |received| <= |stages|
    ensures stages != [] ==> |received| > 0 && received[0] == passable
    ensures FallibleFold(passable, stages).Ok? ==> |received| == |stages|
    ensures FallibleFold(passable, stages).Err? ==>
              |received| > 0 && stages[|received| - 1](received[|received| - 1]) == FallibleFold(passable, stages)
    ensures |received| > 0 && stages[|received| - 1](received[|received| - 1]).Ok? ==>
              |received| == |stages| && FallibleFold(passable, stages) == stages[|received| - 1](received[|received| - 1])
    decreases |stages|
  {
    if stages == [] then []
    else match stages[0](passable)
      case Ok(next) =>
        [passable] + FallibleInputs(next, stages[1..])
      case Err(_) => [passable]
  }

  /** Every stage call but the last succeeded, and its output is the next call's argument. */
  lemma {:induction false} FallibleStageReceivesPreviousOutput<T, E>(passable: T, stages: seq<T -> Result<T, E>>, i: nat)
    requires 0 < i < |FallibleInputs(passable, stages)|
    ensures stages[i - 1](FallibleInputs(passable, stages)[i - 1]) == Ok(FallibleInputs(passable, stages)[i])
    decreases i
  {
    var next := stages[0](passable).value;
    if i > 1 {
      FallibleStageReceivesPreviousOutput(next, stages[1..], i - 1);
      assert stages[1..][i - 2] == stages[i - 1];
    }
  }

  /** Splitting law for throwing stages: a failure in `s` means `t` never matters. */
  lemma {:induction false} FallibleFoldSplit<T, E>(passable: T, s: seq<T -> Result<T, E>>, t: seq<T -> Result<T, E>>)
    ensures FallibleFold(passable, s + t) ==
              match FallibleFold(passable, s)
              case Ok(w) => FallibleFold(w, t)
              case Err(e) => Err(e)
    ensures FallibleInputs(passable, s + t) ==
              match FallibleFold(passable, s)
              case Ok(w) => FallibleInputs(passable, s) + FallibleInputs(w, t)
              case Err(_) => FallibleInputs(passable, s)
    decreases |s|
  {
    if s == [] {
      assert s + t == t;
    } else {
      assert (s + t)[0] == s[0];
      assert (s + t)[1..] == s[1..] + t;
      match s[0](passable)
      case Ok(next) => FallibleFoldSplit(next, s[1..], t);
      case Err(_) =>
    }
  }

  /**
   * Fail-fast: if stages 0..k-1 succeed and stage k throws, exactly k + 1
   * stages are called (none after k) and stage k's error is the result,
   * unchanged.
   */
  lemma {:induction false} FailureStopsPipeline<T, E>(passable: T, stages: seq<T -> Result<T, E>>, k: nat)
    requires k < |stages|
    requires FallibleFold(passable, stages[..k]).Ok?
    requires stages[k](FallibleFold(passable, stages[..k]).value).Err?
    ensures FallibleFold(passable, stages) == stages[k](FallibleFold(passable, stages[..k]).value)
    ensures |FallibleInputs(passable, stages)| == k + 1
  {
    var w := FallibleFold(passable, stages[..k]).value;
    assert stages == stages[..k] + stages[k..];
    FallibleFoldSplit(passable, stages[..k], stages[k..]);
    assert stages[k..][0] == stages[k];
  }

  /** Each stage wrapped so that it returns `Ok` of its output: a stage that never throws. */
  function Lift<T, E>(stages: seq<T -> T>): (lifted: seq<T -> Result<T, E>>)
    ensures |lifted| == |stages|
  {
    seq(|stages|, i requires 0 <= i < |stages| => (x: T) => Ok(stages[i](x)))
  }

  /** Stages that never throw: same result and same calls as the plain pipeline. */
  lemma {:induction false} LiftedFoldSucceeds<T, E>(passable: T, stages: seq<T -> T>)
    ensures FallibleFold(passable, Lift<T, E>(stages)) == Ok(Fold(passable, stages))
    ensures FallibleInputs(passable, Lift<T, E>(stages)) == Inputs(passable, stages)
    decreases |stages|
  {
    if stages != [] {
      var lifted := Lift<T, E>(stages);
      assert lifted[0](passable) == Ok(stages[0](passable));
      assert lifted[1..] == Lift<T, E>(stages[1..]);
      LiftedFoldSucceeds<T, E>(stages[0](passable), stages[1..]);
    }
  }

  /**
   * `Pipeline::through` with stages that may throw: the loop stops at the
   * first failing stage and hands its error back as it is.
   */
  method FallibleThrough<T, E>(passable: T, stages: seq<T -> Result<T, E>>)
    returns (r: Result<T, E>, ghost received: seq<T>)
    ensures r == FallibleFold(passable, stages)
    ensures received == FallibleInputs(passable, stages)
  {
    var current := passable;
    received := [];
    var i := 0;
    while i < |stages|
      invariant 0 <= i <= |stages|
      invariant FallibleFold(current, stages[i..]) == FallibleFold(passable, stages)
      invariant received + FallibleInputs(current, stages[i..]) == FallibleInputs(passable, stages)
    {
      assert stages[i..][0] == stages[i] && stages[i..][1..] == stages[i + 1..];
      received := received + [current];
      var out := stages[i](current);
      if out.Err? {
        r := out;
        return;
      }
      current := out.value;
      i := i + 1;
    }
    r := Ok(current);
  }
}
