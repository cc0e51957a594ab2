/**
 * The loop of `process_one_file` over its output files: copy or preprocess
 * the file's lines into each version's output, stopping at the first error.
 * A file's content is its sequence of lines; what was written is the list of
 * (path, lines) pairs in the order the files were written.
 */
module Driver {
  import opened Text
  import opened Preprocessor
  import opened Paths

  datatype Option<T> = None | Some(value: T)

  datatype Output = Output(path: seq<string>, lines: seq<string>)

  /** The files written, and the error that stopped the run if there was one. */
  datatype Outcome = Outcome(written: seq<Output>, error: Option<Error>)

  /** The lines one job writes, or the error its `preprocess` call raises. */
  function Perform(job: Job, content: seq<string>, eval: Evaluator): Result<seq<string>>
  {
    match job.action
    case Copy => Ok(content)
    case Run(env) => Preprocess(content, env, eval)
  }

  /** The jobs in order; an error ends the run, keeping what was already
      written. */
  function RunJobs(jobs: seq<Job>, content: seq<string>, eval: Evaluator): (r: Outcome)
    ensures |r.written| <= |jobs|
    ensures r.error.None? ==> |r.written| == |jobs|
    ensures r.error.Some? ==> |r.written| < |jobs|
    decreases |jobs|
  {
    if |jobs| == 0 then Outcome([], None)
    else
      match Perform(jobs[0], content, eval)
      case Err(e) => Outcome([], Some(e))
      case Ok(lines) =>
        var rest := RunJobs(jobs[1..], content, eval);
        Outcome([Output(jobs[0].out, lines)] + rest.written, rest.error)
  }

  /** What a run wrote: job `k`'s path and lines for every job before the
      first failure, and that failure. */
  lemma {:induction false} RunJobsWrites(jobs: seq<Job>, content: seq<string>, eval: Evaluator)
    ensures var r := RunJobs(jobs, content, eval);
            (forall k :: 0 <= k < |r.written| ==>
               r.written[k].path == jobs[k].out && Perform(jobs[k], content, eval) == Ok(r.written[k].lines)) &&
            (r.error.Some? ==> Perform(jobs[|r.written|], content, eval) == Err(r.error.value))
    decreases |jobs|
  {
    if |jobs| > 0 && Perform(jobs[0], content, eval).Ok? {
      RunJobsWrites(jobs[1..], content, eval);
      var r := RunJobs(jobs, content, eval);
      forall k | 1 <= k < |r.written| ensures r.written[k].path == jobs[k].out && Perform(jobs[k], content, eval) == Ok(r.written[k].lines) {
        assert jobs[1..][k - 1] == jobs[k];
      }
      if r.error.Some? {
        assert jobs[1..][|r.written| - 1] == jobs[|r.written|];
      }
    }
  }

  /** Running the jobs from `i` on, after the first `i` have written `done`. */
  lemma RunJobsFrom(jobs: seq<Job>, i: nat, content: seq<string>, eval: Evaluator)
    requires i < |jobs|
    ensures var r := RunJobs(jobs[i..], content, eval);
            match Perform(jobs[i], content, eval)
            case Err(e) => r == Outcome([], Some(e))
            case Ok(lines) =>
              var rest := RunJobs(jobs[i + 1..], content, eval);
              r == Outcome([Output(jobs[i].out, lines)] + rest.written, rest.error)
  {
    assert jobs[i..][0] == jobs[i] && jobs[i..][1..] == jobs[i + 1..];
  }

  /** One entry of `out_files`: `shutil.copy` or `preprocess`. */
  method RunJob(job: Job, content: seq<string>, eval: Evaluator) returns (r: Result<seq<string>>)
    ensures r == Perform(job, content, eval)
  {
    if job.action.Copy? {
      r := Ok(content);
    } else {
      r := PreprocessLines(content, job.action.env, eval);
    }
  }

  /** The loops of `process_one_file` over `out_files`: each job in turn,
      stopping at the first exception. */
  method RunAll(jobs: seq<Job>, content: seq<string>, eval: Evaluator) returns (r: Outcome)
    ensures r == RunJobs(jobs, content, eval)
  {
    var written: seq<Output> := [];
    var i := 0;
    while i < |jobs|
      invariant 0 <= i <= |jobs|
      invariant var rest := RunJobs(jobs[i..], content, eval);
                RunJobs(jobs, content, eval) == Outcome(written + rest.written, rest.error)
    {
      RunJobsFrom(jobs, i, content, eval);
      var job := jobs[i];
      var res := RunJob(job, content, eval);
      if res.Err? {
        assert written + [] == written;
        return Outcome(written, Some(res.error));
      }
      var lines := res.value;
      ghost var rest := RunJobs(jobs[i + 1..], content, eval);
      assert written + ([Output(job.out, lines)] + rest.written) == (written + [Output(job.out, lines)]) + rest.written;
      written := written + [Output(job.out, lines)];
      i := i + 1;
    }
    assert jobs[i..] == [];
    return Outcome(written, None);
  }

  /** `process_one_file` once its directories exist: the lines of `f` are
      copied or preprocessed into each version in turn. */
  method ProcessOneFile(f: SourceFile, content: seq<string>, eval: Evaluator) returns (r: Outcome)
    ensures r == RunJobs(Plan(f, Versions), content, eval)
  {
    r := RunAll(Plan(f, Versions), content, eval);
  }

  /** A file without the `.ppme` suffix is copied unchanged into every version,
      whatever the evaluator. */
  lemma PlainFileCopied(f: SourceFile, content: seq<string>, eval: Evaluator)
    requires !Annotated(f.name)
    ensures var r := RunJobs(Plan(f, Versions), content, eval);
            r.error.None? && |r.written| == |Versions| &&
            forall k :: 0 <= k < |Versions| ==>
              r.written[k] == Output([VersionDir(Versions[k])] + f.dir + [f.name], content)
  {
    var jobs := Plan(f, Versions);
    PlanShape(f, Versions);
    RunJobsWrites(jobs, content, eval);
    var r := RunJobs(jobs, content, eval);
    forall k | 0 <= k < |Versions| ensures r.written[k].lines == content {
      assert Perform(jobs[k], content, eval) == Ok(content);
    }
  }

  /** An annotated file: version `k` receives `preprocess` of the lines under
      `SDK_VERSION = Versions[k]`; the run stops at the first version whose
      preprocessing fails, with that failure, after writing every version
      before it. */
  lemma AnnotatedFilePreprocessed(f: SourceFile, content: seq<string>, eval: Evaluator)
    requires Annotated(f.name)
    ensures var r := RunJobs(Plan(f, Versions), content, eval);
            (forall k :: 0 <= k < |r.written| ==>
               r.written[k].path == [VersionDir(Versions[k])] + RelTarget(f) &&
               Preprocess(content, EnvFor(Versions[k]), eval) == Ok(r.written[k].lines)) &&
            (r.error.None? <==> forall k :: 0 <= k < |Versions| ==> Preprocess(content, EnvFor(Versions[k]), eval).Ok?) &&
            (r.error.Some? ==>
               |r.written| < |Versions| &&
               Preprocess(content, EnvFor(Versions[|r.written|]), eval) == Err(r.error.value))
  {
    var jobs := Plan(f, Versions);
    PlanShape(f, Versions);
    RunJobsWrites(jobs, content, eval);
    var r := RunJobs(jobs, content, eval);
    if r.error.Some? {
      var k := |r.written|;
      assert Perform(jobs[k], content, eval) == Preprocess(content, EnvFor(Versions[k]), eval);
    } else {
      forall k | 0 <= k < |Versions| ensures Preprocess(content, EnvFor(Versions[k]), eval).Ok? {
        assert Perform(jobs[k], content, eval) == Preprocess(content, EnvFor(Versions[k]), eval);
      }
    }
  }

  /** The run over the walked files: backup files ending in `~` are skipped,
      every other file is processed in turn, and the first error ends the run.
      `contentOf` stands for reading a file. */
  function RunTree(files: seq<SourceFile>, contentOf: SourceFile -> seq<string>, eval: Evaluator): Outcome
    decreases |files|
  {
    if |files| == 0 then Outcome([], None)
    else if EndsWith(files[0].name, "~") then RunTree(files[1..], contentOf, eval)
    else
      var o := RunJobs(Plan(files[0], Versions), contentOf(files[0]), eval);
      if o.error.Some? then o
      else
        var rest := RunTree(files[1..], contentOf, eval);
        Outcome(o.written + rest.written, rest.error)
  }

  /** The files one source file writes, one per version in order. */
  lemma OneFileTargets(f: SourceFile, content: seq<string>, eval: Evaluator)
    ensures var o := RunJobs(Plan(f, Versions), content, eval);
            forall k :: 0 <= k < |o.written| ==>
              k < |Versions| && o.written[k].path == [VersionDir(Versions[k])] + RelTarget(f)
  {
    var jobs := Plan(f, Versions);
    RunJobsWrites(jobs, content, eval);
    PlanShape(f, Versions);
    var o := RunJobs(jobs, content, eval);
    forall k | 0 <= k < |o.written| ensures o.written[k].path == [VersionDir(Versions[k])] + RelTarget(f) {
      assert jobs[k].out == [jobs[k].out[0]] + jobs[k].out[1..];
    }
  }

  /** `path` is where some walked file that is not a backup goes for some version. */
  ghost predicate FromProcessed(path: seq<string>, files: seq<SourceFile>)
  {
    exists f, v :: f in files && !EndsWith(f.name, "~") && v in Versions && path == [VersionDir(v)] + RelTarget(f)
  }

  /** Backup files are never processed: every file written lies below a
      version directory at the target path of a walked file whose name does
      not end in `~`. */
  lemma {:induction false} RunTreeSkipsBackups(files: seq<SourceFile>, contentOf: SourceFile -> seq<string>, eval: Evaluator)
    ensures forall o :: o in RunTree(files, contentOf, eval).written ==> FromProcessed(o.path, files)
    decreases |files|
  {
    if |files| > 0 {
      var f := files[0];
      var tail := files[1..];
      RunTreeSkipsBackups(tail, contentOf, eval);
      var rest := RunTree(tail, contentOf, eval);
      forall o | o in rest.written ensures FromProcessed(o.path, files) {
        var g, v :| g in tail && !EndsWith(g.name, "~") && v in Versions && o.path == [VersionDir(v)] + RelTarget(g);
        assert g in files;
      }
      if !EndsWith(f.name, "~") {
        var o := RunJobs(Plan(f, Versions), contentOf(f), eval);
        OneFileTargets(f, contentOf(f), eval);
        var r := RunTree(files, contentOf, eval);
        forall w | w in r.written ensures FromProcessed(w.path, files) {
          var k :| 0 <= k < |r.written| && r.written[k] == w;
          if k < |o.written| {
            assert Versions[k] in Versions && w == o.written[k];
          } else {
            assert w == rest.written[k - |o.written|];
          }
        }
      }
    }
  }

  /** What processing one walked file writes, and the error it stops with. */
  function FileOutcome(f: SourceFile, contentOf: SourceFile -> seq<string>, eval: Evaluator): Outcome
  {
    RunJobs(Plan(f, Versions), contentOf(f), eval)
  }

  /** Every file of `files` processed in turn, with no filter, stopping at the
      first error. */
  function RunEach(files: seq<SourceFile>, contentOf: SourceFile -> seq<string>, eval: Evaluator): Outcome
    decreases |files|
  {
    if |files| == 0 then Outcome([], None)
    else
      var o := FileOutcome(files[0], contentOf, eval);
      if o.error.Some? then o
      else
        var rest := RunEach(files[1..], contentOf, eval);
        Outcome(o.written + rest.written, rest.error)
  }

  /** The outputs of the files of `files`, one file after the other. */
  function Concat(files: seq<SourceFile>, contentOf: SourceFile -> seq<string>, eval: Evaluator): seq<Output>
    decreases |files|
  {
    if |files| == 0 then [] else FileOutcome(files[0], contentOf, eval).written + Concat(files[1..], contentOf, eval)
  }

  /** The walk's run is the `~` filter followed by processing exactly the files
      it keeps, in walk order: no backup file is processed, however its target
      path compares with another file's. */
  lemma {:induction false} RunTreeIsSelectThenRun(files: seq<SourceFile>, contentOf: SourceFile -> seq<string>, eval: Evaluator)
    ensures RunTree(files, contentOf, eval) == RunEach(SelectFiles(files), contentOf, eval)
    decreases |files|
  {
    if |files| > 0 {
      RunTreeIsSelectThenRun(files[1..], contentOf, eval);
      assert files == [files[0]] + files[1..];
      SelectFilesAppend([files[0]], files[1..]);
    }
  }

  /** Processing files in turn ends without error exactly when every file
      does, and then writes each file's outputs in order. */
  lemma {:induction false} RunEachSucceeds(files: seq<SourceFile>, contentOf: SourceFile -> seq<string>, eval: Evaluator)
    ensures var r := RunEach(files, contentOf, eval);
            (r.error.None? <==> forall k :: 0 <= k < |files| ==> FileOutcome(files[k], contentOf, eval).error.None?) &&
            (r.error.None? ==> r.written == Concat(files, contentOf, eval))
    decreases |files|
  {
    if |files| > 0 && FileOutcome(files[0], contentOf, eval).error.None? {
      RunEachSucceeds(files[1..], contentOf, eval);
      assert forall k :: 1 <= k < |files| ==> files[k] == files[1..][k - 1];
    }
  }

  /** The run that writes the outputs of the first `m` files and then stops at
      file `m` with what that file wrote and its error. */
  ghost predicate StopsAt(files: seq<SourceFile>, m: nat, contentOf: SourceFile -> seq<string>, eval: Evaluator, r: Outcome)
  {
    m < |files| &&
    (forall k :: 0 <= k < m ==> FileOutcome(files[k], contentOf, eval).error.None?) &&
    r == Outcome(Concat(files[..m], contentOf, eval) + FileOutcome(files[m], contentOf, eval).written,
                 FileOutcome(files[m], contentOf, eval).error)
  }

  /** Regrouping a concatenation, stated apart so that `StopsLater` is given
      it rather than searching for it. */
  lemma Regroup(a: seq<Output>, b: seq<Output>, c: seq<Output>)
    ensures a + (b + c) == a + b + c
  {
  }

  /** The outputs of the first `m + 1` files: the first file's, then those of
      the next `m`. */
  lemma ConcatCons(files: seq<SourceFile>, m: nat, contentOf: SourceFile -> seq<string>, eval: Evaluator)
    requires m < |files|
    ensures Concat(files[..m + 1], contentOf, eval) ==
            FileOutcome(files[0], contentOf, eval).written + Concat(files[1..][..m], contentOf, eval)
  {
    assert files[..m + 1][0] == files[0] && files[..m + 1][1..] == files[1..][..m];
  }

  /** Stopping at file `m` of the rest is stopping at file `m + 1` after a
      first file that succeeded. */
  lemma {:induction false} StopsLater(files: seq<SourceFile>, m: nat, contentOf: SourceFile -> seq<string>, eval: Evaluator)
    requires |files| > 0 && FileOutcome(files[0], contentOf, eval).error.None?
    requires StopsAt(files[1..], m, contentOf, eval, RunEach(files[1..], contentOf, eval))
    ensures StopsAt(files, m + 1, contentOf, eval, RunEach(files, contentOf, eval))
  {
    var tail := files[1..];
    var first, rest := FileOutcome(files[0], contentOf, eval), RunEach(tail, contentOf, eval);
    assert RunEach(files, contentOf, eval) == Outcome(first.written + rest.written, rest.error);
    ConcatCons(files, m, contentOf, eval);
    assert files[m + 1] == tail[m];
    var last := FileOutcome(tail[m], contentOf, eval);
    Regroup(first.written, Concat(tail[..m], contentOf, eval), last.written);
    forall k | 0 <= k < m + 1 ensures FileOutcome(files[k], contentOf, eval).error.None? {
      if k > 0 {
        assert files[k] == tail[k - 1];
      }
    }
  }

  /** A run that fails wrote the outputs of every file before the first
      failing one, followed by what that one wrote, and stopped with its error. */
  lemma {:induction false} RunEachStops(files: seq<SourceFile>, contentOf: SourceFile -> seq<string>, eval: Evaluator)
    ensures var r := RunEach(files, contentOf, eval);
            r.error.Some? ==> exists m :: StopsAt(files, m, contentOf, eval, r)
    decreases |files|
  {
    if |files| > 0 {
      if FileOutcome(files[0], contentOf, eval).error.Some? {
        assert Concat(files[..0], contentOf, eval) == [];
        assert StopsAt(files, 0, contentOf, eval, RunEach(files, contentOf, eval));
      } else {
        RunEachStops(files[1..], contentOf, eval);
        if RunEach(files[1..], contentOf, eval).error.Some? {
          var m :| StopsAt(files[1..], m, contentOf, eval, RunEach(files[1..], contentOf, eval));
          StopsLater(files, m, contentOf, eval);
        }
      }
    }
  }

  /** Every output of every file in `files` is among their concatenation. */
  lemma {:induction false} ConcatHas(files: seq<SourceFile>, k: nat, contentOf: SourceFile -> seq<string>, eval: Evaluator)
    requires k < |files|
    ensures forall o :: o in FileOutcome(files[k], contentOf, eval).written ==> o in Concat(files, contentOf, eval)
    decreases k
  {
    if k > 0 {
      ConcatHas(files[1..], k - 1, contentOf, eval);
      assert files[1..][k - 1] == files[k];
    }
  }

  /** A run of the walk that ends without error processed every walked file
      whose name does not end in `~`, without error, and wrote all its outputs. */
  lemma RunTreeProcessesEveryFile(files: seq<SourceFile>, contentOf: SourceFile -> seq<string>, eval: Evaluator)
    ensures var r := RunTree(files, contentOf, eval);
            r.error.None? ==>
              forall f :: f in files && !EndsWith(f.name, "~") ==>
                FileOutcome(f, contentOf, eval).error.None? &&
                forall o :: o in FileOutcome(f, contentOf, eval).written ==> o in r.written
  {
    var sel := SelectFiles(files);
    RunTreeIsSelectThenRun(files, contentOf, eval);
    RunEachSucceeds(sel, contentOf, eval);
    var r := RunTree(files, contentOf, eval);
    if r.error.None? {
      forall f | f in files && !EndsWith(f.name, "~")
        ensures FileOutcome(f, contentOf, eval).error.None?
        ensures forall o :: o in FileOutcome(f, contentOf, eval).written ==> o in r.written
      {
        assert f in sel;
        var k :| 0 <= k < |sel| && sel[k] == f;
        ConcatHas(sel, k, contentOf, eval);
      }
    }
  }

  /** The loop of the script's entry point over the walked files. */
  method ProcessTree(files: seq<SourceFile>, contentOf: SourceFile -> seq<string>, eval: Evaluator) returns (r: Outcome)
    ensures r == RunTree(files, contentOf, eval)
  {
    var written: seq<Output> := [];
    var i := 0;
    while i < |files|
      invariant 0 <= i <= |files|
      invariant var rest := RunTree(files[i..], contentOf, eval);
                RunTree(files, contentOf, eval) == Outcome(written + rest.written, rest.error)
    {
      var f := files[i];
      assert files[i..][0] == f && files[i..][1..] == files[i + 1..];
      if !EndsWith(f.name, "~") {
        var o := ProcessOneFile(f, contentOf(f), eval);
        if o.error.Some? {
          return Outcome(written + o.written, o.error);
        }
        ghost var rest := RunTree(files[i + 1..], contentOf, eval);
        assert written + (o.written + rest.written) == (written + o.written) + rest.written;
        written := written + o.written;
      }
      i := i + 1;
    }
    assert files[i..] == [];
    assert written + [] == written;
    return Outcome(written, None);
  }
}
