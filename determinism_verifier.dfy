/** `DeterminismVerifier::verify` (ddex-builder `determinism.rs`): build the
    same request several times through fresh builders and check that every
    output equals the first. `build(i)` stands for what the `i`-th
    `build_internal` call returns; `PipelineBuilds` instantiates it with the
    real pipeline, each iteration running in its own environment `envs(i)`,
    so clock readings and UUIDs may differ from one build to the next. */
module DeterminismVerifier {
  import opened Util
  import opened BuildTypes
  import Determinism
  import Pipeline = Builder

  type Builds = nat -> Result<BuildResult, BuildError>

  /** The builds of the real pipeline: `build_internal` ignores the builder's
      configuration and uses the default options. */
  function PipelineBuilds(request: BuildRequest, envs: nat -> Pipeline.BuildEnvironment): Builds {
    (i: nat) => Pipeline.BuildSpec(request, DefaultBuildOptions(), envs(i))
  }

  /** The texts of the first `n` builds, or the error of the first build that
      fails. */
  function OutputsSpec(build: Builds, n: nat): Result<seq<string>, BuildError> {
    if n == 0 then Ok([])
    else
      match OutputsSpec(build, n - 1)
      case Err(e) => Err(e)
      case Ok(xs) =>
        match build(n - 1)
        case Err(e) => Err(e)
        case Ok(res) => Ok(xs + [res.xml])
  }

  /** Every text equals the first. */
  predicate AllEqualFirst(xs: seq<string>) {
    forall i :: 1 <= i < |xs| ==> xs[i] == xs[0]
  }

  /** What `verify` returns. */
  function VerifySpec(build: Builds, iterations: nat): Result<bool, BuildError> {
    if iterations < 2 then Ok(true)
    else
      match OutputsSpec(build, iterations)
      case Err(e) => Err(e)
      case Ok(xs) => Ok(AllEqualFirst(xs))
  }

  /** `verify`: the build loop, then the comparison loop. The configuration
      argument only reaches `Builder::with_config`, whose configuration
      `build_internal` does not read, so it does not appear here. */
  method Verify(build: Builds, iterations: nat) returns (r: Result<bool, BuildError>)
    ensures r == VerifySpec(build, iterations)
  {
    if iterations < 2 {
      return Ok(true);
    }
    var results: seq<string> := [];
    var i := 0;
    while i < iterations
      invariant i <= iterations
      invariant OutputsSpec(build, i) == Ok(results)
    {
      var result := build(i);
      if result.Err? {
        OutputsErrorSticks(build, i + 1, iterations);
        return Err(result.error);
      }
      results := results + [result.value.xml];
      i := i + 1;
    }
    var first := results[0];
    var j := 1;
    while j < |results|
      invariant 1 <= j <= |results|
      invariant forall k :: 1 <= k < j ==> results[k] == first
    {
      if results[j] != first {
        return Ok(false);
      }
      j := j + 1;
    }
    r := Ok(true);
  }

  // ----------------------------------------------------------------- facts

  /** Once a build has failed, later iterations do not change the outcome. */
  lemma {:induction false} OutputsErrorSticks(build: Builds, m: nat, n: nat)
    requires m <= n && OutputsSpec(build, m).Err?
    ensures OutputsSpec(build, n) == OutputsSpec(build, m)
    decreases n - m
  {
    if m < n {
      OutputsErrorSticks(build, m, n - 1);
    }
  }

  /** The first `n` builds all succeed exactly when the outputs are
      collected, and then the outputs are their texts in iteration order. */
  lemma {:induction false} OutputsShape(build: Builds, n: nat)
    ensures OutputsSpec(build, n).Ok? <==> forall i :: 0 <= i < n ==> build(i).Ok?
    ensures OutputsSpec(build, n).Ok? ==>
      |OutputsSpec(build, n).value| == n
      && forall i :: 0 <= i < n ==> OutputsSpec(build, n).value[i] == build(i).value.xml
  {
    if n > 0 {
      OutputsShape(build, n - 1);
      if OutputsSpec(build, n).Ok? {
        var xs := OutputsSpec(build, n - 1).value;
        forall i | 0 <= i < n ensures build(i).Ok? {
        }
      }
    }
  }

  /** A failed build ends the run with its error: the error reported is that
      of the first failing iteration, and every earlier iteration succeeded. */
  lemma {:induction false} OutputsFirstError(build: Builds, n: nat)
    requires OutputsSpec(build, n).Err?
    ensures exists i :: (0 <= i < n && build(i).Err?
      && OutputsSpec(build, n).error == build(i).error
      && forall j :: 0 <= j < i ==> build(j).Ok?)
  {
    if OutputsSpec(build, n - 1).Err? {
      OutputsFirstError(build, n - 1);
      var i :| 0 <= i < n - 1 && build(i).Err?
        && OutputsSpec(build, n - 1).error == build(i).error
        && forall j :: 0 <= j < i ==> build(j).Ok?;
      assert 0 <= i < n;
    } else {
      OutputsShape(build, n - 1);
      assert build(n - 1).Err?;
    }
  }

  /** Equal to the first is the same as pairwise equal. */
  lemma AllEqualFirstIffPairwise(xs: seq<string>)
    ensures AllEqualFirst(xs) <==> forall i, j :: 0 <= i < |xs| && 0 <= j < |xs| ==> xs[i] == xs[j]
  {
    if AllEqualFirst(xs) {
      forall i, j | 0 <= i < |xs| && 0 <= j < |xs| ensures xs[i] == xs[j] {
        if i > 0 { assert xs[i] == xs[0]; }
        if j > 0 { assert xs[j] == xs[0]; }
      }
    }
  }

  /** With fewer than two iterations nothing is built and the answer is
      true; otherwise, when every build succeeds, the answer is whether all
      their texts are pairwise equal. */
  lemma VerifyMeaning(build: Builds, iterations: nat)
    ensures iterations < 2 ==> VerifySpec(build, iterations) == Ok(true)
    ensures iterations >= 2 && (forall i :: 0 <= i < iterations ==> build(i).Ok?) ==>
      VerifySpec(build, iterations) == Ok(forall i, j :: 0 <= i < iterations && 0 <= j < iterations ==>
                                                   build(i).value.xml == build(j).value.xml)
  {
    OutputsShape(build, iterations);
    if iterations >= 2 && OutputsSpec(build, iterations).Ok? {
      var xs := OutputsSpec(build, iterations).value;
      AllEqualFirstIffPairwise(xs);
    }
  }

  /** A deterministic build passes: when every iteration yields the result
      of the first, `verify` answers true, or reports the error the build
      always fails with. */
  lemma DeterministicBuildVerifies(build: Builds, iterations: nat)
    requires forall i :: 0 <= i < iterations ==> build(i) == build(0)
    ensures iterations >= 2 && build(0).Err? ==>
      VerifySpec(build, iterations) == Err(build(0).error)
    ensures iterations < 2 || build(0).Ok? ==> VerifySpec(build, iterations) == Ok(true)
  {
    OutputsShape(build, iterations);
    if iterations >= 2 {
      if build(0).Err? {
        OutputsFirstError(build, iterations);
      } else {
        VerifyMeaning(build, iterations);
      }
    }
  }

  /** Builds that all succeed or fail together and agree on the text when
      they succeed never make `verify` answer false. */
  lemma SameTextsNeverFalse(build: Builds, iterations: nat)
    requires forall i :: 0 <= i < iterations ==>
      (build(i).Ok? <==> build(0).Ok?) && (build(i).Ok? ==> build(i).value.xml == build(0).value.xml)
    ensures VerifySpec(build, iterations) != Ok(false)
  {
    OutputsShape(build, iterations);
    if iterations >= 2 && OutputsSpec(build, iterations).Ok? {
      VerifyMeaning(build, iterations);
    }
  }

  /** Builds that differ only in how long they took are deterministic: if
      every iteration's environment is the first one's up to the elapsed
      time (so the creation time and the UUID are held equal across
      iterations), `verify` never answers false. */
  lemma ElapsedTimeOnlyInStatistics(request: BuildRequest, envs: nat -> Pipeline.BuildEnvironment, iterations: nat)
    requires forall i :: 0 <= i < iterations ==> envs(i) == envs(0).(elapsedMs := envs(i).elapsedMs)
    ensures VerifySpec(PipelineBuilds(request, envs), iterations) != Ok(false)
  {
    var build := PipelineBuilds(request, envs);
    forall i | 0 <= i < iterations
      ensures (build(i).Ok? <==> build(0).Ok?) && (build(i).Ok? ==> build(i).value.xml == build(0).value.xml)
    {
      Pipeline.BuildIgnoresElapsedTime(request, DefaultBuildOptions(), envs(0), envs(i).elapsedMs);
    }
    SameTextsNeverFalse(build, iterations);
  }
}
