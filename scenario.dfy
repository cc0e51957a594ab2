/**
 * A three-way block selected by `SDK_VERSION`, worked through the model. The
 * evaluator stays abstract: each lemma requires only what `eval` returns for
 * the conditions the run actually reaches.
 */
module Scenario {
  import opened Text
  import opened Preprocessor
  import opened Paths
  import opened Driver

  const Cond1 := "SDK_VERSION == 1"
  const Cond2 := "SDK_VERSION == 2"

  const ThreeWay: seq<string> :=
    ["#if " + Cond1 + "\n", "A\n", "#elif " + Cond2 + "\n", "B\n", "#else\n", "C\n", "#endif\n"]

  /** The example's `#if` and `#elif` lines carry their conditions. */
  lemma OpeningLinesParse()
    ensures Classify(ThreeWay[0]) == If(Cond1)
    ensures Classify(ThreeWay[2]) == Elif(Cond2)
  {
    assert ThreeWay[0][4..] == Cond1 + "\n";
    assert ThreeWay[2][6..] == Cond2 + "\n";
    StripNewline(Cond1);
    StripNewline(Cond2);
    assert !IsSpace(Cond1[0]) && !IsSpace(Cond1[|Cond1| - 1]);
    assert !IsSpace(Cond2[0]) && !IsSpace(Cond2[|Cond2| - 1]);
    PrefixesExclusive(ThreeWay[2]);
    assert ThreeWay[2][..6] == "#elif ";
  }

  /** The example's `#else` and `#endif` lines. */
  lemma ClosingLinesParse()
    ensures Classify(ThreeWay[4]) == Else
    ensures Classify(ThreeWay[6]) == Endif
  {
    assert ThreeWay[4][..5] == "#else";
    assert ThreeWay[6][..6] == "#endif";
    PrefixesExclusive(ThreeWay[4]);
    PrefixesExclusive(ThreeWay[6]);
  }

  lemma ConditionsParse()
    ensures Classify(ThreeWay[0]) == If(Cond1)
    ensures Classify(ThreeWay[2]) == Elif(Cond2)
    ensures Classify(ThreeWay[4]) == Else
    ensures Classify(ThreeWay[6]) == Endif
    ensures Shaped(ThreeWay)
  {
    OpeningLinesParse();
    ClosingLinesParse();
  }

  /** The parts of the state the example follows: the stack, the output, no
      held blank, and whether anything has been written. */
  predicate At(r: Result<State>, stack: seq<Frame>, out: seq<string>)
  {
    r.Ok? && r.value.stack == stack && r.value.out == out && r.value.blank == "" &&
    r.value.seenNonBlank == (out != [])
  }

  /** The output after line `k` of the example. */
  function ExpectedOut(v: int, k: nat): seq<string>
  {
    if v == 1 && k >= 2 then ["A\n"]
    else if v == 2 && k >= 4 then ["B\n"]
    else if v != 1 && v != 2 && k >= 6 then ["C\n"]
    else []
  }

  /** The block's frame after line `k` of the example. */
  function Block(v: int, k: nat): Frame
  {
    if k < 3 then Frame(1, v == 1, v == 1)
    else if k < 5 then Frame(1, v == 2, v == 1 || v == 2)
    else Frame(1, v != 1 && v != 2, true)
  }

  /** What the example's run depends on: seven lines, classified as written. */
  predicate Shaped(lines: seq<string>)
  {
    |lines| == 7 &&
    Classify(lines[0]) == If(Cond1) && lines[1] == ['A', '\n'] &&
    Classify(lines[2]) == Elif(Cond2) && lines[3] == ['B', '\n'] &&
    Classify(lines[4]) == Else && lines[5] == ['C', '\n'] &&
    Classify(lines[6]) == Endif
  }

  lemma OpenLine(lines: seq<string>, v: int, env: Env, eval: Evaluator)
    requires Shaped(lines)
    requires eval(Cond1, env) == Bool(v == 1)
    ensures At(Fold(lines, 1, env, eval), [Sentinel, Block(v, 1)], ExpectedOut(v, 1))
  {
    assert Fold(lines, 1, env, eval) == Step(Start, lines[0], 1, env, eval);
    assert Target(Start.stack, lines[0], 1) == [Sentinel, Frame(1, false, false)];
  }

  /** The example's content lines are single letters: non-blank, not directives. */
  lemma LetterLine(c: char)
    requires c in {'A', 'B', 'C'}
    ensures !IsBlank([c, '\n']) && Classify([c, '\n']) == Content
  {
    assert [c, '\n'][0] == c;
  }

  lemma ContentLine(lines: seq<string>, v: int, k: nat, env: Env, eval: Evaluator)
    requires Shaped(lines)
    requires k in {2, 4, 6}
    requires At(Fold(lines, k - 1, env, eval), [Sentinel, Block(v, k - 1)], ExpectedOut(v, k - 1))
    ensures At(Fold(lines, k, env, eval), [Sentinel, Block(v, k)], ExpectedOut(v, k))
  {
    var c := if k == 2 then 'A' else if k == 4 then 'B' else 'C';
    LetterLine(c);
    var st := Fold(lines, k - 1, env, eval).value;
    assert Fold(lines, k, env, eval) == Step(st, [c, '\n'], k, env, eval);
  }

  lemma ElifLine(lines: seq<string>, v: int, env: Env, eval: Evaluator)
    requires Shaped(lines)
    requires v != 1 ==> eval(Cond2, env) == Bool(v == 2)
    requires At(Fold(lines, 2, env, eval), [Sentinel, Block(v, 2)], ExpectedOut(v, 2))
    ensures At(Fold(lines, 3, env, eval), [Sentinel, Block(v, 3)], ExpectedOut(v, 3))
  {
    var st := Fold(lines, 2, env, eval).value;
    assert Fold(lines, 3, env, eval) == Step(st, lines[2], 3, env, eval);
  }

  lemma ElseLine(lines: seq<string>, v: int, env: Env, eval: Evaluator)
    requires Shaped(lines)
    requires v != 1 && v != 2 ==> eval("True", env) == Bool(true)
    requires At(Fold(lines, 4, env, eval), [Sentinel, Block(v, 4)], ExpectedOut(v, 4))
    ensures At(Fold(lines, 5, env, eval), [Sentinel, Block(v, 5)], ExpectedOut(v, 5))
  {
    var st := Fold(lines, 4, env, eval).value;
    assert Fold(lines, 5, env, eval) == Step(st, lines[4], 5, env, eval);
  }

  lemma CloseLine(lines: seq<string>, v: int, env: Env, eval: Evaluator)
    requires Shaped(lines)
    requires At(Fold(lines, 6, env, eval), [Sentinel, Block(v, 6)], ExpectedOut(v, 6))
    ensures At(Fold(lines, 7, env, eval), [Sentinel], ExpectedOut(v, 6))
  {
    var st := Fold(lines, 6, env, eval).value;
    assert Fold(lines, 7, env, eval) == Step(st, lines[6], 7, env, eval);
  }

  lemma FirstBranches(lines: seq<string>, v: int, env: Env, eval: Evaluator)
    requires Shaped(lines)
    requires eval(Cond1, env) == Bool(v == 1)
    requires v != 1 ==> eval(Cond2, env) == Bool(v == 2)
    ensures At(Fold(lines, 4, env, eval), [Sentinel, Block(v, 4)], ExpectedOut(v, 4))
  {
    OpenLine(lines, v, env, eval);
    ContentLine(lines, v, 2, env, eval);
    ElifLine(lines, v, env, eval);
    ContentLine(lines, v, 4, env, eval);
  }

  lemma LastBranches(lines: seq<string>, v: int, env: Env, eval: Evaluator)
    requires Shaped(lines)
    requires v != 1 && v != 2 ==> eval("True", env) == Bool(true)
    requires At(Fold(lines, 4, env, eval), [Sentinel, Block(v, 4)], ExpectedOut(v, 4))
    ensures At(Fold(lines, 7, env, eval), [Sentinel], ExpectedOut(v, 6))
  {
    ElseLine(lines, v, env, eval);
    ContentLine(lines, v, 6, env, eval);
    CloseLine(lines, v, env, eval);
  }

  /** Exactly one of A, B and C is written, the one whose condition holds
      first; a condition after the selected branch is never needed, so it may
      even be one that would raise. */
  lemma ThreeWaySelectsOne(lines: seq<string>, v: int, env: Env, eval: Evaluator)
    requires lines == ThreeWay
    requires eval(Cond1, env) == Bool(v == 1)
    requires v != 1 ==> eval(Cond2, env) == Bool(v == 2)
    requires v != 1 && v != 2 ==> eval("True", env) == Bool(true)
    ensures Preprocess(lines, env, eval) == Ok([if v == 1 then "A\n" else if v == 2 then "B\n" else "C\n"])
  {
    ConditionsParse();
    FirstBranches(lines, v, env, eval);
    LastBranches(lines, v, env, eval);
    assert |lines| == 7;
  }

  /** When no branch holds the output is empty (the driver's cue to untrack
      the generated file). */
  lemma NoBranchGivesEmptyOutput(lines: seq<string>, env: Env, eval: Evaluator)
    requires lines == [ThreeWay[0], ThreeWay[1], ThreeWay[6]]
    requires eval(Cond1, env) == Bool(false)
    ensures Preprocess(lines, env, eval) == Ok([])
  {
    ConditionsParse();
    LetterLine('A');
    assert Fold(lines, 0, env, eval) == Ok(Start);
    var s1 := Fold(lines, 1, env, eval);
    assert s1 == Step(Start, lines[0], 1, env, eval);
    assert Target(Start.stack, lines[0], 1) == [Sentinel, Frame(1, false, false)];
    assert s1.Ok? && s1.value.stack == [Sentinel, Frame(1, false, false)];
    var s2 := Fold(lines, 2, env, eval);
    assert s2 == Step(s1.value, lines[1], 2, env, eval);
    assert s2 == s1;
    var s3 := Fold(lines, 3, env, eval);
    assert s3 == Step(s2.value, lines[2], 3, env, eval);
    assert s3.Ok? && s3.value.stack == [Sentinel] && s3.value.out == s1.value.out;
  }

  /** An evaluator that reads the example's conditions as Python would under
      `{'SDK_VERSION': v}`. */
  ghost predicate ComparesVersion(eval: Evaluator)
  {
    forall v: nat {:trigger EnvFor(v)} ::
      eval(Cond1, EnvFor(v)) == Bool(v == 1) && eval(Cond2, EnvFor(v)) == Bool(v == 2) &&
      eval("True", EnvFor(v)) == Bool(true)
  }

  /** The annotated example file, processed for versions 1, 2 and 3, yields
      `A`, `B` and `C` under `v1`, `v2` and `v3` at the same path without the
      suffix. */
  lemma ThreeVersionsOfOneFile(f: SourceFile, lines: seq<string>, eval: Evaluator)
    requires Annotated(f.name) && lines == ThreeWay && ComparesVersion(eval)
    ensures RunJobs(Plan(f, Versions), lines, eval) ==
            Outcome([Output(["v1"] + RelTarget(f), ["A\n"]),
                     Output(["v2"] + RelTarget(f), ["B\n"]),
                     Output(["v3"] + RelTarget(f), ["C\n"])], None)
  {
    assert EnvFor(1) == EnvFor(Versions[0]) && EnvFor(2) == EnvFor(Versions[1]) && EnvFor(3) == EnvFor(Versions[2]);
    ThreeWaySelectsOne(lines, 1, EnvFor(1), eval);
    ThreeWaySelectsOne(lines, 2, EnvFor(2), eval);
    ThreeWaySelectsOne(lines, 3, EnvFor(3), eval);
    AnnotatedFilePreprocessed(f, lines, eval);
    assert VersionDir(1) == "v1" && VersionDir(2) == "v2" && VersionDir(3) == "v3";
    var r := RunJobs(Plan(f, Versions), lines, eval);
    assert |r.written| == 3;
  }
}
