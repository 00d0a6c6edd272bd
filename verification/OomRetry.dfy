/** run_with_oom_recovery: shrink the batch after each out-of-memory error and run again. */
module OomRetry {
  import opened Basics
  import opened Jobs
  import opened Recovery

  /** prompts_per_step and num_samples; the configuration admits no value below 1. */
  datatype BatchConfig = BatchConfig(prompts: nat, samples: nat)

  predicate Valid(c: BatchConfig) {
    c.prompts >= 1 && c.samples >= 1
  }

  function Batch(c: BatchConfig): nat {
    c.prompts * c.samples
  }

  /** Halves the prompts first, then the samples; None at the minimum. */
  function ShrinkBatch(c: BatchConfig): Option<BatchConfig> {
    if c.prompts > 1 then Some(c.(prompts := c.prompts / 2))
    else if c.samples > 2 then Some(c.(samples := c.samples / 2))
    else None
  }

  /** The configuration after i shrinks, if that many are possible. */
  function ShrunkBy(c: BatchConfig, i: nat): Option<BatchConfig>
    decreases i
  {
    if i == 0 then Some(c)
    else
      match ShrinkBatch(c)
      case None => None
      case Some(smaller) => ShrunkBy(smaller, i - 1)
  }

  lemma {:induction false} ShrunkOnceMore(c: BatchConfig, i: nat)
    requires ShrunkBy(c, i).Some?
    ensures ShrunkBy(c, i + 1) == ShrinkBatch(ShrunkBy(c, i).value)
    decreases i
  {
    if i > 0 {
      ShrunkOnceMore(ShrinkBatch(c).value, i - 1);
    }
  }

  /** One call of the runner, seen from the loop. */
  datatype Attempt = Finished(ref: string) | OutOfMemory(oom: JobError) | OtherError(other: JobError)

  datatype Ending = Returned(ref: string) | Raised(error: JobError) | NoResult

  /** The arguments of one runner call: the configuration and the checkpoint to resume from. */
  datatype Call = Call(config: BatchConfig, resumeFrom: Option<string>)

  function CallAt(c: BatchConfig, latest: nat -> Option<string>, i: nat): Call
    requires ShrunkBy(c, i).Some?
  {
    Call(ShrunkBy(c, i).value, if i == 0 then None else latest(i - 1))
  }

  /** The first n calls were made as they should be, and each ran out of memory. */
  ghost predicate AllOom(c: BatchConfig, runner: (Call, nat) -> Attempt, latest: nat -> Option<string>, n: nat) {
    forall i :: 0 <= i < n ==> ShrunkBy(c, i).Some? && runner(CallAt(c, latest, i), i).OutOfMemory?
  }

  /** How a recovery run of at most bound tries ends, and after which calls. */
  ghost predicate RecoveryRun(c: BatchConfig, runner: (Call, nat) -> Attempt, latest: nat -> Option<string>,
                              bound: nat, calls: seq<Call>, end: Ending)
  {
    && |calls| <= bound
    && (forall i :: 0 <= i < |calls| ==> ShrunkBy(c, i).Some? && calls[i] == CallAt(c, latest, i))
    && match end
       case NoResult => |calls| == bound && AllOom(c, runner, latest, bound) && ShrunkBy(c, bound).Some?
       case Returned(ref) =>
         && |calls| > 0 && AllOom(c, runner, latest, |calls| - 1)
         && runner(calls[|calls| - 1], |calls| - 1) == Finished(ref)
       case Raised(e) =>
         && |calls| > 0 && AllOom(c, runner, latest, |calls| - 1)
         && var last := runner(calls[|calls| - 1], |calls| - 1);
         && (last == OtherError(e) || (last == OutOfMemory(e) && ShrunkBy(c, |calls|) == None))
  }

  /** runner and latest stand for the i-th run and the newest checkpoint found after it. */
  method RunWithOomRecovery(config: BatchConfig, runner: (Call, nat) -> Attempt, latest: nat -> Option<string>,
                            maxOomRetries: int)
    returns (end: Ending, calls: seq<Call>)
    ensures RecoveryRun(config, runner, latest, Max(0, maxOomRetries + 1), calls, end)
  {
    var cfg := config;
    var resumeFrom: Option<string> := None;
    calls := [];
    var bound := Max(0, maxOomRetries + 1);
    for attempt := 0 to bound
      invariant |calls| == attempt
      invariant ShrunkBy(config, attempt) == Some(cfg)
      invariant resumeFrom == if attempt == 0 then None else latest(attempt - 1)
      invariant forall i :: 0 <= i < attempt ==>
                  ShrunkBy(config, i).Some? && calls[i] == CallAt(config, latest, i)
      invariant AllOom(config, runner, latest, attempt)
    {
      var call := Call(cfg, resumeFrom);
      calls := calls + [call];
      ShrunkOnceMore(config, attempt);
      match runner(call, attempt)
      case Finished(ref) =>
        return Returned(ref), calls;
      case OtherError(e) =>
        return Raised(e), calls;
      case OutOfMemory(e) =>
        var smaller := ShrinkBatch(cfg);
        resumeFrom := latest(attempt);
        if smaller == None {
          return Raised(e), calls;
        }
        cfg := smaller.value;
    }
    end := NoResult;
  }

  /** One shrink: both knobs stay positive, the batch at least halves, the group size goes last. */
  lemma ShrinkMeaning(c: BatchConfig)
    requires Valid(c)
    ensures ShrinkBatch(c) == None <==> c.prompts == 1 && c.samples <= 2
    ensures ShrinkBatch(c).Some? ==>
              var d := ShrinkBatch(c).value;
              && Valid(d)
              && 2 * Batch(d) <= Batch(c)
              && (c.prompts > 1 ==> d.samples == c.samples)
  {
    if c.prompts > 1 {
      var h := c.prompts / 2;
      assert 2 * (h * c.samples) == (2 * h) * c.samples;
      assert (c.prompts - 2 * h) * c.samples >= 0;
      assert c.prompts * c.samples == (2 * h) * c.samples + (c.prompts - 2 * h) * c.samples;
    }
  }

  /** The number of shrinks a sample count above 2 allows. */
  function SampleShrinks(samples: nat): nat {
    if samples <= 2 then 0 else 1 + SampleShrinks(samples / 2)
  }

  /** All the shrinks a configuration allows. */
  function Shrinks(c: BatchConfig): nat {
    Log2(c.prompts) + SampleShrinks(c.samples)
  }

  /** i shrinks are possible exactly up to Shrinks, and they divide the batch by at least 2 to the i. */
  lemma {:induction false} ShrinksAreCounted(c: BatchConfig, i: nat)
    requires Valid(c)
    ensures ShrunkBy(c, i).Some? <==> i <= Shrinks(c)
    ensures ShrunkBy(c, i).Some? ==>
              Valid(ShrunkBy(c, i).value) && Pow2(i) * Batch(ShrunkBy(c, i).value) <= Batch(c)
    decreases i
  {
    ShrinkMeaning(c);
    ShrinkIsCounted(c);
    if i > 0 && ShrinkBatch(c).Some? {
      var d := ShrinkBatch(c).value;
      ShrinksAreCounted(d, i - 1);
      hide Shrinks, ShrinkBatch, Batch, Pow2;
      if ShrunkBy(d, i - 1).Some? {
        Halved(i, Batch(ShrunkBy(d, i - 1).value), Batch(d), Batch(c));
      }
    } else {
      assert Pow2(0) == 1;
    }
  }

  /** One shrink uses up one of those counted, and none is counted at the minimum. */
  lemma ShrinkIsCounted(c: BatchConfig)
    requires Valid(c)
    ensures ShrinkBatch(c) == None <==> Shrinks(c) == 0
    ensures ShrinkBatch(c).Some? ==> Shrinks(c) == 1 + Shrinks(ShrinkBatch(c).value)
  {
  }

  lemma Halved(i: nat, b: int, d: int, c: int)
    requires i > 0 && Pow2(i - 1) * b <= d && 2 * d <= c
    ensures Pow2(i) * b <= c
  {
    assert Pow2(i) == 2 * Pow2(i - 1);
    assert (2 * Pow2(i - 1)) * b == 2 * (Pow2(i - 1) * b);
  }

  /**
   A run that never fits: it re-raises if the batch reaches its minimum within the
   tries, and otherwise ends with neither a result nor an exception.
   */
  lemma AlwaysOom(c: BatchConfig, runner: (Call, nat) -> Attempt, latest: nat -> Option<string>, bound: nat,
                  calls: seq<Call>, end: Ending)
    requires Valid(c)
    requires RecoveryRun(c, runner, latest, bound, calls, end)
    requires forall call, i :: 0 <= i < bound ==> runner(call, i).OutOfMemory?
    ensures end == NoResult <==> bound <= Shrinks(c)
    ensures end.Raised? <==> bound > Shrinks(c)
    ensures |calls| == Min(bound, Shrinks(c) + 1)
  {
    ShrinksAreCounted(c, bound);
    ShrinksAreCounted(c, |calls|);
    if |calls| > 0 {
      ShrinksAreCounted(c, |calls| - 1);
    }
  }

  /**
   From call to call: the first uses the configuration as it is and no checkpoint; each later one
   halves the prompts, or at one prompt the samples, and resumes from the newest checkpoint found
   after the run before. Every run but the last ran out of memory.
   */
  lemma EachRetryShrinksAndResumes(c: BatchConfig, runner: (Call, nat) -> Attempt, latest: nat -> Option<string>,
                                   bound: nat, calls: seq<Call>, end: Ending, i: nat)
    requires RecoveryRun(c, runner, latest, bound, calls, end) && i < |calls|
    ensures i == 0 ==> calls[0] == Call(c, None)
    ensures i > 0 ==>
              var before, now := calls[i - 1].config, calls[i].config;
              && calls[i].resumeFrom == latest(i - 1)
              && runner(calls[i - 1], i - 1).OutOfMemory?
              && (before.prompts > 1 ==> now == BatchConfig(before.prompts / 2, before.samples))
              && (before.prompts <= 1 ==> before.samples > 2 && now == BatchConfig(before.prompts, before.samples / 2))
  {
    if i > 0 {
      ShrunkOnceMore(c, i - 1);
      assert calls[i - 1] == CallAt(c, latest, i - 1);
      assert ShrunkBy(c, i).Some? && calls[i] == CallAt(c, latest, i);
    }
  }

  /** At one prompt and two samples a step nothing can be halved. */
  predicate AtMinimum(c: BatchConfig) {
    c.prompts <= 1 && c.samples <= 2
  }

  /**
   How the loop ends is what its last run says: its result; its error, raised again unless it is
   an OOM of a batch that can shrink; or nothing, after the last of the tries.
   */
  lemma EndingIsTheLastRuns(c: BatchConfig, runner: (Call, nat) -> Attempt, latest: nat -> Option<string>, bound: nat,
                            calls: seq<Call>, end: Ending)
    requires RecoveryRun(c, runner, latest, bound, calls, end) && bound > 0
    ensures 0 < |calls| <= bound
    ensures var n := |calls| - 1;
            match runner(calls[n], n)
            case Finished(ref) => end == Returned(ref)
            case OtherError(e) => end == Raised(e)
            case OutOfMemory(e) =>
              if AtMinimum(calls[n].config) then end == Raised(e) else end == NoResult && |calls| == bound
  {
    var n := |calls| - 1;
    assert |calls| > 0;
    assert ShrunkBy(c, n).Some? && calls[n] == CallAt(c, latest, n);
    ShrunkOnceMore(c, n);
  }
}
