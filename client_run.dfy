/**
 * `run_experiment` and the experiment loop of `main`, with the network
 * replaced by what it returned and the file system by a map from path to
 * file contents.
 */
module ClientRun {
  import opened Client

  /** The files the client writes, by path. Directories are not modelled. */
  class OutputFiles {
    var files: map<string, string>

    constructor ()
      ensures files == map[]
    {
      files := map[];
    }

    /** `open(path, "w")`: the file exists afterwards and is empty. */
    method Open(path: string)
      modifies this
      ensures files == old(files)[path := ""]
    {
      files := files[path := ""];
    }

    /** `f.write(text)` on the file opened at `path`. */
    method Write(path: string, text: string)
      requires path in files
      modifies this
      ensures files == old(files)[path := old(files)[path] + text]
    {
      files := files[path := files[path] + text];
    }
  }

  /** What the outside world supplied to one experiment: random draws, responses, latencies. */
  datatype Observation = Observation(draws: seq<seq<nat>>, responses: seq<Response>, elapsed: seq<real>)

  /** One observation per string sent. */
  predicate Fits(numStrings: int, obs: Observation)
  {
    ValidStringDraws(numStrings, obs.draws) &&
    |obs.responses| == RangeLength(numStrings) && |obs.elapsed| == RangeLength(numStrings)
  }

  /** The `results` list of one experiment. */
  function Results(numStrings: int, obs: Observation): (results: seq<Outcome>)
    requires Fits(numStrings, obs)
    ensures |results| == RangeLength(numStrings)
  {
    GatherResults(StringsToSend(numStrings, obs.draws), obs.responses, obs.elapsed)
  }

  /**
   * Writing the two lines of the next success extends the written blocks by
   * one: `SuccessBlocksSnoc` with the appends regrouped, kept apart so that
   * the write loop does not reason about string concatenation itself.
   */
  lemma WriteStep(start: string, successful: seq<Outcome>, k: nat)
    requires AllSuccesses(successful) && k < |successful|
    ensures start + SuccessBlocks(successful[..k]) + OriginalLine(successful[k]) + ReversedLine(successful[k])
            == start + SuccessBlocks(successful[..k + 1])
  {
    SuccessBlocksSnoc(successful, k);
  }

  /** The write loop of a ten-string run: two lines and a blank line per success. */
  method WriteSuccessBlocks(fs: OutputFiles, path: string, successful: seq<Outcome>)
    requires path in fs.files && AllSuccesses(successful)
    modifies fs
    ensures fs.files == old(fs.files)[path := old(fs.files)[path] + SuccessBlocks(successful)]
  {
    ghost var start := fs.files[path];
    for k := 0 to |successful|
      invariant path in fs.files && fs.files == old(fs.files)[path := fs.files[path]]
      invariant fs.files[path] == start + SuccessBlocks(successful[..k])
    {
      fs.Write(path, OriginalLine(successful[k]));
      fs.Write(path, ReversedLine(successful[k]));
      WriteStep(start, successful, k);
    }
    assert successful[..|successful|] == successful;
  }

  /** Opens the report file and writes the report of a run with some success. */
  method WriteReport(fs: OutputFiles, path: string, numStrings: int, successful: seq<Outcome>, meanText: string)
    requires AllSuccesses(successful)
    modifies fs
    ensures fs.files == old(fs.files)[path := ReportLayout(numStrings, successful, meanText)]
  {
    fs.Open(path);
    if numStrings == 10 {
      WriteSuccessBlocks(fs, path, successful);
      assert "" + SuccessBlocks(successful) == SuccessBlocks(successful);
    }
    fs.Write(path, AverageLine(meanText));
    assert "" + AverageLine(meanText) == AverageLine(meanText);
  }

  /**
   * `run_experiment`: send the strings, keep the successes, and write the
   * report to the experiment's file, replacing whatever it held.
   */
  method RunExperiment(fs: OutputFiles, environment: string, numStrings: int, obs: Observation,
                       formatMean: seq<real> -> string)
    requires Fits(numStrings, obs)
    modifies fs
    ensures fs.files == old(fs.files)[FilePath(environment, numStrings) :=
                                      ReportText(numStrings, Results(numStrings, obs), formatMean)]
  {
    var path := FilePath(environment, numStrings);
    var strs := StringsToSend(numStrings, obs.draws);
    var results := GatherResults(strs, obs.responses, obs.elapsed);
    var successful := SuccessfulRequests(results);
    if successful == [] {
      fs.Open(path);
      fs.Write(path, FailureText);
      assert "" + FailureText == FailureText;
    } else {
      var meanText := formatMean(ResponseTimes(successful));
      WriteReport(fs, path, numStrings, successful, meanText);
    }
  }

  /** An experiment of the plan fitted with its observation. */
  predicate AllFit(plan: seq<Experiment>, obs: seq<Observation>)
  {
    |obs| == |plan| && forall k :: 0 <= k < |plan| ==> Fits(plan[k].numStrings, obs[k])
  }

  function PathOf(e: Experiment): string
  {
    FilePath(e.environment, e.numStrings)
  }

  function ReportOf(e: Experiment, obs: Observation, formatMean: seq<real> -> string): string
    requires Fits(e.numStrings, obs)
  {
    ReportText(e.numStrings, Results(e.numStrings, obs), formatMean)
  }

  /** The files after running the experiments of `plan` one after another. */
  ghost function AfterRuns(files: map<string, string>, plan: seq<Experiment>, obs: seq<Observation>,
                           formatMean: seq<real> -> string): map<string, string>
    requires AllFit(plan, obs)
  {
    if plan == [] then files
    else
      var n := |plan| - 1;
      AfterRuns(files, plan[..n], obs[..n], formatMean)[PathOf(plan[n]) := ReportOf(plan[n], obs[n], formatMean)]
  }

  /** Every prefix of a fitted plan is fitted. */
  lemma AllFitPrefix(plan: seq<Experiment>, obs: seq<Observation>, n: nat)
    requires AllFit(plan, obs) && n <= |plan|
    ensures AllFit(plan[..n], obs[..n])
  {
    forall k | 0 <= k < n ensures Fits(plan[..n][k].numStrings, obs[..n][k]) {
      assert plan[..n][k] == plan[k] && obs[..n][k] == obs[k];
    }
  }

  /** Paths written by pairwise different experiments. */
  predicate DistinctPaths(plan: seq<Experiment>)
  {
    forall j, k :: 0 <= j < k < |plan| ==> PathOf(plan[j]) != PathOf(plan[k])
  }

  /** Every prefix of a plan with distinct paths has distinct paths. */
  lemma DistinctPathsPrefix(plan: seq<Experiment>, n: nat)
    requires DistinctPaths(plan) && n <= |plan|
    ensures DistinctPaths(plan[..n])
  {
    forall i, j | 0 <= i < j < n ensures PathOf(plan[..n][i]) != PathOf(plan[..n][j]) {
      assert plan[..n][i] == plan[i] && plan[..n][j] == plan[j];
    }
  }

  /** When the experiments write distinct files, each file ends up holding its own experiment's report. */
  lemma {:induction false} AfterRunsReport(files: map<string, string>, plan: seq<Experiment>,
                                           obs: seq<Observation>, formatMean: seq<real> -> string, k: nat)
    requires AllFit(plan, obs) && DistinctPaths(plan) && k < |plan|
    ensures PathOf(plan[k]) in AfterRuns(files, plan, obs, formatMean)
    ensures AfterRuns(files, plan, obs, formatMean)[PathOf(plan[k])] == ReportOf(plan[k], obs[k], formatMean)
  {
    var n := |plan| - 1;
    if k < n {
      var pre, opre := plan[..n], obs[..n];
      AllFitPrefix(plan, obs, n);
      DistinctPathsPrefix(plan, n);
      assert pre[k] == plan[k] && opre[k] == obs[k];
      AfterRunsReport(files, pre, opre, formatMean, k);
      assert PathOf(plan[k]) != PathOf(plan[n]);
    }
  }

  /** Files that no experiment of the plan writes keep their contents. */
  lemma {:induction false} AfterRunsUntouched(files: map<string, string>, plan: seq<Experiment>,
                                              obs: seq<Observation>, formatMean: seq<real> -> string, p: string)
    requires AllFit(plan, obs)
    requires p in files && forall k :: 0 <= k < |plan| ==> p != PathOf(plan[k])
    ensures p in AfterRuns(files, plan, obs, formatMean) && AfterRuns(files, plan, obs, formatMean)[p] == files[p]
  {
    if plan != [] {
      var n := |plan| - 1;
      AllFitPrefix(plan, obs, n);
      assert forall k :: 0 <= k < n ==> plan[..n][k] == plan[k];
      AfterRunsUntouched(files, plan[..n], obs[..n], formatMean, p);
    }
  }

  /** The loop of `main` over its experiments, one awaited after another. */
  method RunAll(fs: OutputFiles, plan: seq<Experiment>, obs: seq<Observation>, formatMean: seq<real> -> string)
    requires AllFit(plan, obs)
    modifies fs
    ensures fs.files == AfterRuns(old(fs.files), plan, obs, formatMean)
  {
    for k := 0 to |plan|
      invariant AllFit(plan[..k], obs[..k])
      invariant fs.files == AfterRuns(old(fs.files), plan[..k], obs[..k], formatMean)
    {
      RunExperiment(fs, plan[k].environment, plan[k].numStrings, obs[k], formatMean);
      AllFitPrefix(plan, obs, k + 1);
      assert plan[..k + 1][..k] == plan[..k] && obs[..k + 1][..k] == obs[..k];
      assert plan[..k + 1][k] == plan[k] && obs[..k + 1][k] == obs[k];
    }
    assert plan[..|plan|] == plan && obs[..|obs|] == obs;
  }

  /**
   * `main` after argument parsing: run the planned experiments. With the
   * environment among the accepted ones, every planned experiment's file
   * holds its own report afterwards, and every other file is unchanged.
   */
  method RunMain(fs: OutputFiles, environment: Option<string>, strings: Option<int>,
               obs: seq<Observation>, formatMean: seq<real> -> string)
    requires environment.Some? ==> environment.value in Environments
    requires AllFit(Plan(environment, strings), obs)
    modifies fs
    ensures fs.files == AfterRuns(old(fs.files), Plan(environment, strings), obs, formatMean)
    ensures var plan := Plan(environment, strings);
      forall k :: 0 <= k < |plan| ==>
        PathOf(plan[k]) in fs.files && fs.files[PathOf(plan[k])] == ReportOf(plan[k], obs[k], formatMean)
    ensures var plan := Plan(environment, strings);
      forall p :: p in old(fs.files) && (forall k :: 0 <= k < |plan| ==> p != PathOf(plan[k])) ==>
        p in fs.files && fs.files[p] == old(fs.files)[p]
  {
    var plan := Plan(environment, strings);
    PlanFilesDistinct(environment, strings);
    RunAll(fs, plan, obs, formatMean);
    forall k | 0 <= k < |plan|
      ensures PathOf(plan[k]) in fs.files && fs.files[PathOf(plan[k])] == ReportOf(plan[k], obs[k], formatMean)
    {
      AfterRunsReport(old(fs.files), plan, obs, formatMean, k);
    }
    forall p | p in old(fs.files) && (forall k :: 0 <= k < |plan| ==> p != PathOf(plan[k]))
      ensures p in fs.files && fs.files[p] == old(fs.files)[p]
    {
      AfterRunsUntouched(old(fs.files), plan, obs, formatMean, p);
    }
  }
}
