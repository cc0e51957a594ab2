# split-versions: a verified model of the conditional-directive preprocessor

`split-versions.py` turns one tree of annotated sources (`src/merged`) into one
tree per SDK version (`src/v1`, `src/v2`, `src/v3`). A file whose name ends in
`.ppme` is run through `preprocess` once per version, with `SDK_VERSION` bound to
that version. The `.ppme` suffix is dropped from the output name. Any other file
is copied unchanged. Backup files ending in `~` are skipped.

`preprocess` reads the file line by line and acts on four directives, matched as
prefixes of the raw line: `#if <expr>`, `#elif <expr>`, `#else` and `#endif`.
It keeps a stack of condition frames `(line_no, emit, seen_pass)` over a sentinel
frame. It evaluates a condition only when the enclosing block emits and no
branch of the current block has passed. Content lines are written only while the
top frame emits. Whitespace-only lines are held back and written only between
two non-blank lines.

The model, file by file:

- `text.dfy` (`Text`): Python's `str.isspace`, `str.strip`, `startswith` and
  `endswith` on `seq<char>`.
- `preprocessor.dfy` (`Preprocessor`): the engine.
  - `Step` is one loop iteration as a function. `Fold` is the loop over a prefix
    of the input. `Preprocess` is the whole call: the written lines, or the
    exception raised.
  - `PreprocessLines` is the imperative loop, with its stack, held blank, flag
    and output updated in place. It is proved to compute `Preprocess`.
  - The state carries a `Trace`, which the source does not keep. It records
    where `eval` was called, which branches were taken, and which input line
    each output line came from. It exists so that the properties below can be
    stated.
- `invariants.dfy` (`Invariants`): the invariant the loop keeps, proved for every
  prefix of every input.
- `properties.dfy` (`Properties`): the engine's guarantees:
  - stack discipline and the ways one line can fail;
  - emission only when every enclosing block emits;
  - short-circuit evaluation and at most one branch per block;
  - the output is a filtered copy of the input, with a tidy blank-line shape.
- `nesting.dfy` (`Nesting`): block nesting stated over the input alone (`#if`
  lines minus `#endif` lines), tied to the stack and to the two balance errors.
  It names which `#if` lines "Unclosed #if" reports: for each level still open
  at the end, the one line that opened it and after which it was never closed.
- `blanks.dfy` (`Blanks`): a closed-form statement of the blank-line rule, with
  the proof that `Preprocess` follows it on input with no directives.
- `paths.dfy` (`Paths`): the path logic of `process_one_file`:
  - stripping the suffix and naming the output directory `v{v}`;
  - the per-version jobs;
  - the `~` filter.
- `driver.dfy` (`Driver`): the loops of `process_one_file` and of the entry
  point. Both are proved against specification functions.
- `scenario.dfy` (`Scenario`): the three-way `#if/#elif/#else` example, worked
  through the model for each version.

`eval` is a parameter of type `Evaluator = (string, Env) -> EvalResult`. Its
result is a bool, a non-bool, a `SyntaxError` or another exception. Lemmas that
need particular answers take them as hypotheses.

## Model

| member | source | states |
|---|---|---|
| `Text.Strip` | split-versions.py:47 | `strip()` gives the empty string exactly when the line is whitespace-only; otherwise the result neither starts nor ends with whitespace |
| `Text.StripTrims` | split-versions.py:47 | what `strip()` leaves is the line with a whitespace-only prefix and a whitespace-only suffix cut off; with `Strip`'s own contract this is exactly the line with all leading and trailing whitespace removed |
| `Preprocessor.Classify` | split-versions.py:53-67 | the prefix tests of the loop body: a line is content exactly when none of the four directive prefixes matches (the full classification is `ClassifySpec`) |
| `Preprocessor.PrefixesExclusive` | split-versions.py:53-66 | no line starts with two of `#if `, `#elif `, `#else` and `#endif`, so the order of the tests never decides a line |
| `Preprocessor.ClassifySpec` | split-versions.py:53-67 | a line is `#if`, `#elif`, `#else` or `#endif` exactly when it starts with that prefix, and content when it starts with none; `#if` and `#elif` carry the rest of the line after the prefix, stripped |
| `Preprocessor.Decide` | split-versions.py:80-104 | definition of one condition directive on the top frame (after the push for `#if`); its behaviour is stated by `DecideSpec`, `ShortCircuit` and `BranchSelection` |
| `Preprocessor.Write` | split-versions.py:74-79 | definition of writing a non-blank content line: the held blank first, when it is non-empty and a non-blank line was written before, then the line; its effect on the output is stated by `OutputShape` and `Blanks.TidiedSnoc` |
| `Preprocessor.Step` | split-versions.py:46-104 | definition of one loop iteration: classify the line, pop on `#endif`, hold or write content while the top frame emits, otherwise `Decide`; stated by `StackDiscipline`, `StepFailures` and `ContentNeedsEveryBlock` |
| `Preprocessor.Fold` | split-versions.py:44-104 | definition of the loop over the first `i` lines, stopping at the first exception; its invariant is `FoldKeepsInvariant` and its error behaviour `FoldErrSticks` |
| `Preprocessor.Preprocess` | split-versions.py:14-109 | definition of the whole call: the written lines, or the exception; stated by `Nesting.BalanceAtEnd`, `Nesting.WellNestedBalances`, `OutputIsFilteredInput` and `Blanks.PlainFileIsTidied` |
| `Preprocessor.DecideSpec` | split-versions.py:80-104 | with only the sentinel open: "No open #if". `eval` is consulted only when the parent frame emits and the top frame has not passed, and is logged exactly then. A bool result sets the top frame's `emit`. A non-bool is a type error. A syntax error or another exception propagates. Only the top frame changes, and `seen_pass` once set stays set |
| `Preprocessor.FoldErrSticks` | split-versions.py:44-104 | an exception ends the loop: once a prefix fails, every longer prefix fails with the same error |
| `Preprocessor.ApplyCondition` | split-versions.py:80-104 | the imperative condition step fails exactly when `Decide` fails, with the same error; otherwise it yields `Decide`'s new stack and trace |
| `Preprocessor.EmitLine` | split-versions.py:67-79 | a blank content line replaces the held blank. A non-blank one is written, after the held blank if a non-blank line was already written, and clears the held blank |
| `Preprocessor.PreprocessLines` | split-versions.py:14-109 | the loop over the lines computes `Preprocess`: the same output, or the same error at the same line |
| `Invariants.FoldKeepsInvariant` | split-versions.py:28-104 | after every prefix of the input: each frame's `emit` implies its parent's. Each open frame is an `#if` line, in increasing line order, and emits only if it has passed. Taken branches never repeat a block. The output is a tidy, directive-free, order-preserving selection of the lines read. Every evaluated line is a condition directive |
| `Properties.StackDiscipline` | split-versions.py:53-83 | `#if` pushes exactly one frame carrying its line number (lines 53-58). `#endif` pops exactly one, or fails with "No open #if" when only the sentinel is open (lines 62-66). `#elif` and `#else` fail the same way (lines 82-83) and otherwise change only the top frame. Content leaves the stack alone. The sentinel stays at the bottom |
| `Properties.TopEmitsIffAllEmit` | split-versions.py:67 | under the inheritance invariant, the top frame emits exactly when every frame emits |
| `Properties.ContentNeedsEveryBlock` | split-versions.py:67-79 | a content line inside any suppressed block changes nothing. When every block emits, it is held (if blank) or written |
| `Properties.ShortCircuit` | split-versions.py:87-101 | `eval` is called exactly when the parent emits and the block has not passed. When it is not called the line cannot fail. When it is called, each kind of result gives its outcome |
| `Properties.TargetParentEmits` | split-versions.py:86-91 | the parent frame a condition looks at emits exactly when every frame below the top emits |
| `Properties.SuppressedStep` | split-versions.py:87-95 | one condition line read while some frame below its block's top is switched off succeeds without consulting `eval` |
| `Properties.SuppressedNeverEvaluated` | split-versions.py:87-95 | a condition inside a suppressed outer block is never evaluated and never fails |
| `Properties.StepFailures` | split-versions.py:62-101 | the only ways one line fails: a closing or alternative directive with no open block (lines 62-64 for `#endif`, 82-83 for `#elif` and `#else`), or an evaluated condition whose result is not a bool (lines 87-101) |
| `Properties.BranchSelection` | split-versions.py:88-104 | once a block has passed, its later `#elif`/`#else` turn it off without evaluating. `seen_pass` is never reset. A branch turns on only when its condition was evaluated and held |
| `Properties.AtMostOneBranchPerBlock` | split-versions.py:102-104 | over a whole run, no block has two branches taken |
| `Properties.OutputIsFilteredInput` | split-versions.py:53-79 | the output is an order-preserving subsequence of the input, and no output line starts with a directive prefix |
| `Properties.OutputShape` | split-versions.py:68-79 | the output neither starts nor ends with a blank line, has no two blank lines in a row and no empty string; each blank line sits between two non-blank lines |
| `Nesting.StepDepth` | split-versions.py:53-66 | a successful line changes the stack height by +1 for `#if `, -1 for `#endif` and 0 otherwise |
| `Nesting.FoldDepth` | split-versions.py:53-66 | after every prefix that runs without error the stack holds the sentinel and one frame per open block: `1 + Depth`, and `Depth` is never negative |
| `Nesting.UnmatchedFails` | split-versions.py:62-64 | the first `#elif`, `#else` or `#endif` met at depth 0 fails with "No open #if" on its own line (lines 82-83 for `#elif` and `#else`), and so does the whole call |
| `Nesting.UnclosedIffOpen` | split-versions.py:105-108 | a run that reaches the end fails exactly when the input ends inside a block, reporting one line per unclosed block |
| `Nesting.PushKeepsLevels` | split-versions.py:53-58 | an `#if` line pushes its frame at the level its own line brings the depth to; the frames below keep their levels |
| `Nesting.OtherKeepsLevels` | split-versions.py:59-104 | `#elif`, `#else`, `#endif` and content lines keep the line number of every frame they leave on the stack, and the depth after them still covers every such frame |
| `Nesting.FoldKeepsLevels` | split-versions.py:44-104 | after every prefix that runs without error, frame `k` was pushed by the `#if` line that brought the depth to `k`, and the depth has not fallen below `k` since |
| `Nesting.OpensLevelUnique` | split-versions.py:53-66 | at most one `#if` line opens a given level and stays open to the end of the input |
| `Nesting.UnclosedBlocks` | split-versions.py:105-108 | the line numbers reported for unclosed blocks are one per open frame, in increasing order, the `k`-th being the `#if` line that opened level `k + 1` and after which the depth never fell below `k + 1` |
| `Nesting.BalanceAtEnd` | split-versions.py:105-109 | a run without errors ends with exactly the sentinel on the stack and returns its output. Otherwise the error is "Unclosed #if" and lists, bottom to top, for each open level the `#if` line that opened it for good |
| `Nesting.UnclosedNamesOpeners` | split-versions.py:105-108 | "Unclosed #if" carries `Depth(lines)` line numbers, and the `d`-th is the one and only line of the input that opens level `d` and is never closed |
| `Nesting.ReopenedBlockReportsLastIf` | split-versions.py:105-108 | for the input `#if a`, `#endif`, `#if b`, when `a` and `b` each evaluate to a bool, the error is "Unclosed #if" at line 3 alone |
| `Nesting.StepSucceeds` | split-versions.py:53-104 | a line succeeds when it finds the block it needs and, if its condition is evaluated (the parent emits and no branch has passed), that condition yields a bool; nothing is required of conditions that are not reached |
| `Nesting.FoldSucceeds` | split-versions.py:44-104 | well-nested input never stops early when every condition it carries yields a bool; nothing is required of any other expression |
| `Nesting.WellNestedBalances` | split-versions.py:14-109 | well-nested input whose own conditions all yield bools succeeds exactly when every block it opens is closed |
| `Blanks.PlainFileIsTidied` | split-versions.py:38-79 | on a file with no directives (the held blank of lines 38-39 and the content branch of lines 67-79) the output is exactly the closed-form rule: every non-blank line, plus each non-empty blank line that directly precedes a non-blank line and follows some non-blank line |
| `Blanks.Sel` | split-versions.py:68-79 | the closed-form selection of kept lines: each a line of the prefix, and never the empty string |
| `Blanks.DirectiveFreeFold` | split-versions.py:68-79 | without directives, after each prefix the engine holds the closed-form output so far, the last line if it is blank, and whether it has seen text |
| `Blanks.TidiedSnoc` | split-versions.py:74-78 | how the closed-form output grows by one line: a blank line adds nothing yet; a non-blank one adds itself, after the preceding blank when that one is kept |
| `Scenario.ConditionsParse` | split-versions.py:53-62 | the example's lines classify as `#if`, content, `#elif`, content, `#else`, content, `#endif`, with their conditions stripped of the line end |
| `Scenario.ThreeWaySelectsOne` | split-versions.py:53-104 | the three-way block writes exactly `A`, `B` or `C`: the first branch whose condition holds. Conditions after the chosen branch are never needed |
| `Scenario.NoBranchGivesEmptyOutput` | split-versions.py:67-104 | a block whose only condition is false produces empty output |
| `Scenario.ThreeVersionsOfOneFile` | split-versions.py:127-139 | the annotated example yields `A`, `B` and `C` under `v1`, `v2` and `v3` at the same path without the suffix |
| `Paths.Stem` | split-versions.py:120 | the stem followed by `.ppme` is the original name |
| `Paths.StemOfAnnotated` | split-versions.py:119-120 | adding `.ppme` to any name and stripping it gives the name back |
| `Paths.RelTarget` | split-versions.py:116-121 | a plain file keeps its relative path. A `.ppme` file keeps its directory and drops the suffix. A file named exactly `.ppme` maps onto its directory |
| `Paths.Decimal` | split-versions.py:125 | the numeral `str(v)` is digits only, a single digit exactly for `v < 10`, and starts with `0` only when it is `0` (no leading zero) |
| `Paths.DecimalRoundTrip` | split-versions.py:127 | reading the numeral gives back the version |
| `Paths.VersionDirInjective` | split-versions.py:127 | two versions share an output directory name exactly when they are equal |
| `Paths.Plan` | split-versions.py:127-139 | `out_files` with the action for each: one job per version (its length is that of `versions`); the shape is used by `PlainFileCopied`, `AnnotatedFilePreprocessed` and `PlanTargetsDistinct` |
| `Paths.PlanTargetsDistinct` | split-versions.py:127 | distinct versions write distinct paths |
| `Paths.OutputsDistinct` | split-versions.py:8 | with versions 1, 2, 3, a file's three outputs are three different paths |
| `Paths.SelectFiles` | split-versions.py:146 | a walked file is kept exactly when its name does not end in `~`; with no backups the walk is kept whole |
| `Paths.SelectFilesAppend` | split-versions.py:144-146 | the filter distributes over concatenation, so the files kept are in walk order |
| `Driver.RunJobs` | split-versions.py:129-139 | a run writes one file per job, fewer only when it stopped at an error |
| `Driver.Perform` | split-versions.py:129-139 | definition of one job: a copy yields the lines, `preprocess` the result under the job's environment; implemented by `RunJob` |
| `Driver.RunJobsWrites` | split-versions.py:129-139 | the k-th file written is job k's path with job k's copied or preprocessed lines. A run that stopped did so with the error of the first job that failed |
| `Driver.RunJob` | split-versions.py:131-139 | one output: a copy gives the lines unchanged; otherwise `preprocess` under the job's environment |
| `Driver.RunAll` | split-versions.py:129-139 | the imperative loop over `out_files` computes `RunJobs` |
| `Driver.ProcessOneFile` | split-versions.py:111-142 | processing one file is running its per-version jobs in order |
| `Driver.PlainFileCopied` | split-versions.py:129-132 | a file without `.ppme` is copied unchanged to all three versions at its own relative path, whatever the evaluator |
| `Driver.AnnotatedFilePreprocessed` | split-versions.py:133-139 | version k of an annotated file receives `preprocess` under `SDK_VERSION = k`. The run succeeds exactly when every version preprocesses. Otherwise it stops at the first failing version with its error, after writing every earlier version |
| `Driver.OneFileTargets` | split-versions.py:127 | the k-th file written for a source file is `v{Versions[k]}` followed by its target path |
| `Driver.RunTreeSkipsBackups` | split-versions.py:144-147 | every file written lies below a version directory at the target path of some walked file whose name does not end in `~` (which files are processed is `RunTreeIsSelectThenRun`) |
| `Driver.RunTree` | split-versions.py:144-147 | definition of the entry point's loop: skip a file ending in `~`, otherwise process it, stopping at the first error; implemented by `ProcessTree` |
| `Driver.RunEach` | split-versions.py:144-147 | definition of processing a list of files in turn with no filter, stopping at the first error |
| `Driver.RunTreeIsSelectThenRun` | split-versions.py:144-147 | the run over the walk is exactly the `~` filter followed by processing the kept files in walk order, so no backup file is ever processed |
| `Driver.RunEachSucceeds` | split-versions.py:144-147 | processing files in turn ends without error exactly when every file does, and then writes each file's outputs in order |
| `Driver.RunEachStops` | split-versions.py:144-147 | a failed run wrote the outputs of every file before the first failing one, then what that one wrote, and stopped with its error |
| `Driver.RunTreeProcessesEveryFile` | split-versions.py:144-147 | a run that ends without error processed every walked file not ending in `~` without error and wrote all of its outputs |
| `Driver.ProcessTree` | split-versions.py:144-147 | the entry point's loop computes `RunTree`: skip backups, process the rest in walk order, stop at the first error |

## Left out

- Text.Strip: its own ensures do not say which slice of the line it returns. That is lemma `Text.StripTrims`, kept apart so that the fact does not weigh on every proof that mentions `Strip`.
- Preprocessor.Classify: its own ensures state only when a line is content. The full classification is lemma `Preprocessor.ClassifySpec`, kept apart for the same reason.
- Python's `eval` (split-versions.py:94) is an abstract `Evaluator` parameter.
  - Name lookup, operators and truthiness are not modelled.
  - Lemmas that need a particular answer take it as a hypothesis. An example is `eval("True", env)` for `#else`.
  - `eval(expr, locals=env)` accepts `locals` as a keyword only on recent Python versions. On older ones every call raises `TypeError`. That case is the `Raised` result.
- File I/O is not modelled:
  - opening and reading the input, including encoding and newline translation (split-versions.py:42-44);
  - writing the output, and the partial output file left behind when an exception interrupts `preprocess`;
  - `mkdir` (split-versions.py:124-125).

  A file is its sequence of lines as Python's iteration yields them, terminator included. `shutil.copy` (split-versions.py:132) is modelled as writing the same lines.
- The empty-output step (split-versions.py:140-142) is not modelled. It calls `os.path.getsize` and then `git rm` through `subprocess`, which the script never imports (and passes `check = true`, an undefined name). As written, the first version whose output is empty stops the whole script with `NameError`. The model's run goes on past an empty output instead, writing the empty file and continuing with the next version and file.
- The directory walk is not modelled: `rglob`, `is_file` and the path constants (split-versions.py:9-11, 145). The model takes the list of walked regular files as input, plus a function standing for reading each one.
- Diagnostic `print`s and the text of exception messages (split-versions.py:64, 97, 100, 107-108) are not modelled. Errors carry their kind and line numbers only.
- Frames are values in a sequence. The source mutates frame objects in place, but it never shares a frame between two stack slots, so no aliasing is lost.
- The code does not check the order of branches. `#else` may be followed by `#elif` or another `#else`, and the model accepts this as the code does: a passed block turns every later branch off.
- The docstring (split-versions.py:23) describes blank lines as coalesced "around the directives". The code coalesces every run of blank lines, even between two content lines: only the run's last line can be written. The model follows the code, and `Blanks.PlainFileIsTidied` states the rule exactly.
- A held blank is not cleared when a directive is read (split-versions.py:53-66). So a blank line before a suppressed block can still be written before the next emitted non-blank line. The model follows the code.
