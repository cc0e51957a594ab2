/**
 * Block nesting stated over the input alone: the depth of a prefix is the
 * number of its `#if` lines minus the number of its `#endif` lines. The stack
 * of `preprocess` always holds one frame per open block, so a `#endif`,
 * `#elif` or `#else` at depth 0 is "No open #if" on that very line, input
 * ending at a positive depth is "Unclosed #if", and well-nested input whose
 * conditions all evaluate to bools always succeeds.
 */
module Nesting {
  import opened Text
  import opened Preprocessor
  import opened Invariants
  import opened Properties

  /** How a line changes the nesting depth. */
  function Delta(line: string): int
  {
    if StartsWith(line, "#if ") then 1 else if StartsWith(line, "#endif") then -1 else 0
  }

  /** Open `#if` lines minus `#endif` lines of `s`. */
  function Depth(s: seq<string>): int
  {
    if |s| == 0 then 0 else Depth(s[..|s| - 1]) + Delta(s[|s| - 1])
  }

  /** A line that needs an open block: `#elif`, `#else` or `#endif`. */
  predicate NeedsBlock(line: string)
  {
    StartsWith(line, "#elif ") || StartsWith(line, "#else") || StartsWith(line, "#endif")
  }

  /** Every line that needs an open block comes at a positive depth. */
  predicate WellNested(lines: seq<string>)
  {
    forall k :: 0 <= k < |lines| && NeedsBlock(lines[k]) ==> Depth(lines[..k]) > 0
  }

  /** A line that carries a condition: `#if`, `#elif` or `#else`. */
  predicate IsCond(line: string)
  {
    var d := Classify(line); d.If? || d.Elif? || d.Else?
  }

  /** Every condition the input carries yields a bool under `env`. */
  ghost predicate CondsBool(lines: seq<string>, env: Env, eval: Evaluator)
  {
    forall k :: 0 <= k < |lines| && IsCond(lines[k]) ==> eval(CondText(Classify(lines[k])), env).Bool?
  }

  /** One successful line changes the stack height by the line's depth change. */
  lemma StepDepth(st: State, line: string, n: nat, env: Env, eval: Evaluator, next: State)
    requires Step(st, line, n, env, eval) == Ok(next)
    ensures |next.stack| == |st.stack| + Delta(line)
  {
    StackDiscipline(st, line, n, env, eval);
    ClassifySpec(line, Classify(line));
  }

  /** After every prefix that runs without error the stack holds the sentinel
      and one frame per open block, so the depth is never negative. */
  lemma FoldDepth(lines: seq<string>, i: nat, env: Env, eval: Evaluator, r: Result<State>)
    requires i <= |lines| && r == Fold(lines, i, env, eval) && r.Ok?
    ensures |r.value.stack| == 1 + Depth(lines[..i]) && Depth(lines[..i]) >= 0
  {
    var P := (st: State, k: nat) => k <= |lines| && |st.stack| == 1 + Depth(lines[..k]);
    forall st: State, k: nat | k < |lines| && P(st, k) && Step(st, lines[k], k + 1, env, eval).Ok?
      ensures P(Step(st, lines[k], k + 1, env, eval).value, k + 1)
    {
      StepDepth(st, lines[k], k + 1, env, eval, Step(st, lines[k], k + 1, env, eval).value);
      assert lines[..k + 1][..k] == lines[..k];
    }
    assert P(Start, 0);
    FoldInduction(lines, i, env, eval, P, r);
  }

  /** Depth after one more line. */
  lemma DepthSnoc(lines: seq<string>, i: nat)
    requires i < |lines|
    ensures Depth(lines[..i + 1]) == Depth(lines[..i]) + Delta(lines[i])
  {
    assert lines[..i + 1][..i] == lines[..i];
  }

  /** After `i` lines, frame `k` of the stack was opened by the line that
      brought the depth to `k`, and the depth has not dropped below `k` since. */
  ghost predicate LevelsOk(stack: seq<Frame>, lines: seq<string>, i: nat)
  {
    i <= |lines| &&
    forall k :: 1 <= k < |stack| ==>
      1 <= stack[k].lineNo <= i && Depth(lines[..stack[k].lineNo]) == k &&
      forall m :: stack[k].lineNo <= m <= i ==> Depth(lines[..m]) >= k
  }

  /** Frames that keep their lines stay valid one line later as long as the
      depth after that line still covers them. */
  lemma LevelsExtend(s: seq<Frame>, t: seq<Frame>, lines: seq<string>, i: nat)
    requires i < |lines| && LevelsOk(s, lines, i)
    requires |t| <= |s| && forall k :: 1 <= k < |t| ==> t[k].lineNo == s[k].lineNo
    requires Depth(lines[..i + 1]) >= |t| - 1
    ensures LevelsOk(t, lines, i + 1)
  {
    forall k | 1 <= k < |t|
      ensures 1 <= t[k].lineNo <= i + 1 && Depth(lines[..t[k].lineNo]) == k &&
              forall m :: t[k].lineNo <= m <= i + 1 ==> Depth(lines[..m]) >= k
    {
      assert t[k].lineNo == s[k].lineNo;
    }
  }

  /** An `#if` line pushes a frame at the level its own line reaches. */
  lemma PushKeepsLevels(st: State, lines: seq<string>, i: nat, env: Env, eval: Evaluator, next: State)
    requires i < |lines| && |st.stack| == 1 + Depth(lines[..i]) && LevelsOk(st.stack, lines, i)
    requires Step(st, lines[i], i + 1, env, eval) == Ok(next) && Classify(lines[i]).If?
    ensures LevelsOk(next.stack, lines, i + 1)
  {
    var s, t := st.stack, next.stack;
    StackDiscipline(st, lines[i], i + 1, env, eval);
    ClassifySpec(lines[i], Classify(lines[i]));
    DepthSnoc(lines, i);
    LevelsExtend(s, s, lines, i);
    PushLevel(s, t, lines, i + 1);
  }

  /** Pushing a frame for line `i`, which brings the depth to the new
      frame's level, keeps every level valid. */
  lemma PushLevel(s: seq<Frame>, t: seq<Frame>, lines: seq<string>, i: nat)
    requires 1 <= i && LevelsOk(s, lines, i) && Depth(lines[..i]) == |s|
    requires |t| == |s| + 1 && t[..|s|] == s && t[|s|].lineNo == i
    ensures LevelsOk(t, lines, i)
  {
    forall k | 1 <= k < |t|
      ensures 1 <= t[k].lineNo <= i && Depth(lines[..t[k].lineNo]) == k &&
              forall m :: t[k].lineNo <= m <= i ==> Depth(lines[..m]) >= k
    {
      if k < |s| {
        assert t[k] == t[..|s|][k] == s[k];
      }
    }
  }

  /** A stack that keeps its frames, pops its top or replaces its top by a
      frame of the same line keeps the line numbers of the frames left. */
  lemma KeptLineNos(s: seq<Frame>, t: seq<Frame>)
    requires |s| >= 1
    requires t == s || t == s[..|s| - 1] ||
             (|t| == |s| && t[..|s| - 1] == s[..|s| - 1] && t[|s| - 1].lineNo == s[|s| - 1].lineNo)
    ensures |t| <= |s| && forall k :: 1 <= k < |t| ==> t[k].lineNo == s[k].lineNo
  {
    forall k | 1 <= k < |t| ensures t[k].lineNo == s[k].lineNo {
      if k < |s| - 1 {
        assert t[k] == t[..|s| - 1][k];
      }
    }
  }

  /** Any other line keeps the line numbers of the frames that survive it. */
  lemma OtherKeepsLevels(st: State, lines: seq<string>, i: nat, env: Env, eval: Evaluator, next: State)
    requires i < |lines| && |st.stack| == 1 + Depth(lines[..i]) && LevelsOk(st.stack, lines, i)
    requires Step(st, lines[i], i + 1, env, eval) == Ok(next) && !Classify(lines[i]).If?
    ensures LevelsOk(next.stack, lines, i + 1)
  {
    OtherKeepsLineNos(st, lines[i], i + 1, env, eval, next);
    StepDepth(st, lines[i], i + 1, env, eval, next);
    DepthSnoc(lines, i);
    LevelsExtend(st.stack, next.stack, lines, i);
  }

  /** A successful line other than `#if` leaves no frame it did not find, and
      every frame it leaves keeps its line number. */
  lemma OtherKeepsLineNos(st: State, line: string, n: nat, env: Env, eval: Evaluator, next: State)
    requires Step(st, line, n, env, eval) == Ok(next) && !Classify(line).If?
    ensures |next.stack| <= |st.stack|
    ensures forall k :: 1 <= k < |next.stack| ==> next.stack[k].lineNo == st.stack[k].lineNo
  {
    StackDiscipline(st, line, n, env, eval);
    KeptLineNos(st.stack, next.stack);
  }

  /** After every prefix that runs without error, each open frame sits at the
      level its `#if` line opened and that level has stayed open since. */
  lemma FoldKeepsLevels(lines: seq<string>, i: nat, env: Env, eval: Evaluator, r: Result<State>)
    requires i <= |lines| && r == Fold(lines, i, env, eval) && r.Ok?
    ensures LevelsOk(r.value.stack, lines, i)
  {
    var P := (st: State, k: nat) =>
      k <= |lines| && |st.stack| == 1 + Depth(lines[..k]) && LevelsOk(st.stack, lines, k);
    forall st: State, k: nat | k < |lines| && P(st, k) && Step(st, lines[k], k + 1, env, eval).Ok?
      ensures P(Step(st, lines[k], k + 1, env, eval).value, k + 1)
    {
      var next := Step(st, lines[k], k + 1, env, eval).value;
      StepDepth(st, lines[k], k + 1, env, eval, next);
      DepthSnoc(lines, k);
      if Classify(lines[k]).If? {
        PushKeepsLevels(st, lines, k, env, eval, next);
      } else {
        OtherKeepsLevels(st, lines, k, env, eval, next);
      }
    }
    assert lines[..0] == [] && Start.stack == [Sentinel];
    assert Depth(lines[..0]) == 0;
    assert LevelsOk(Start.stack, lines, 0);
    assert P(Start, 0);
    FoldInduction(lines, i, env, eval, P, r);
  }

  /** Line `p` is an `#if` that brings the depth to `d`, and the input never
      drops below `d` afterwards: the block it opens is never closed. */
  predicate OpensLevel(lines: seq<string>, p: nat, d: int)
  {
    1 <= p <= |lines| && StartsWith(lines[p - 1], "#if ") && Depth(lines[..p]) == d &&
    forall m :: p <= m <= |lines| ==> Depth(lines[..m]) >= d
  }

  /** At most one line opens each unclosed level. */
  lemma OpensLevelUnique(lines: seq<string>, p: nat, q: nat, d: int)
    requires OpensLevel(lines, p, d) && OpensLevel(lines, q, d)
    ensures p == q
  {
    if p != q {
      var lo, hi := if p < q then p else q, if p < q then q else p;
      assert Depth(lines[..hi - 1]) >= d;
      DepthSnoc(lines, hi - 1);
      assert false;
    }
  }

  /** The line numbers of the blocks still open at the end, bottom to top:
      the `k`-th is the one line that opened level `k + 1` for good. */
  lemma UnclosedBlocks(stack: Stack, lines: seq<string>)
    requires |stack| > 1 && FramesOk(stack, lines, |lines|) && LevelsOk(stack, lines, |lines|)
    ensures var ns := LineNos(stack[1..]);
            |ns| == |stack| - 1 &&
            (forall k :: 0 <= k < |ns| ==> OpensLevel(lines, ns[k], k + 1)) &&
            (forall a, b :: 0 <= a < b < |ns| ==> ns[a] < ns[b])
  {
    var ns := LineNos(stack[1..]);
    forall k | 0 <= k < |ns| ensures OpensLevel(lines, ns[k], k + 1) {
      assert ns[k] == stack[k + 1].lineNo;
    }
    forall a, b | 0 <= a < b < |ns| ensures ns[a] < ns[b] {
      assert ns[a] == stack[a + 1].lineNo && ns[b] == stack[b + 1].lineNo;
    }
  }

  /** End of input: a run that completes leaves exactly the sentinel on the
      stack; otherwise the error lists, bottom to top, the `#if` line of every
      unclosed block: for each level `k + 1` the line that opened it and after
      which the depth never fell below it. */
  lemma BalanceAtEnd(lines: seq<string>, env: Env, eval: Evaluator)
    requires Fold(lines, |lines|, env, eval).Ok?
    ensures var st := Fold(lines, |lines|, env, eval).value;
            var r := Preprocess(lines, env, eval);
            (|st.stack| == 1 <==> r.Ok?) &&
            (r.Ok? ==> st.stack == [Sentinel] && r.value == st.out) &&
            (r.Err? ==>
               r.error.Unclosed? && |r.error.lineNos| == |st.stack| - 1 &&
               (forall k :: 0 <= k < |r.error.lineNos| ==> OpensLevel(lines, r.error.lineNos[k], k + 1)) &&
               (forall a, b :: 0 <= a < b < |r.error.lineNos| ==> r.error.lineNos[a] < r.error.lineNos[b]))
  {
    var r := Fold(lines, |lines|, env, eval);
    FoldKeepsFrames(lines, |lines|, env, eval, r);
    FoldKeepsLevels(lines, |lines|, env, eval, r);
    if |r.value.stack| > 1 {
      UnclosedBlocks(r.value.stack, lines);
    } else {
      assert r.value.stack == [r.value.stack[0]];
    }
  }

  /** The first `#elif`, `#else` or `#endif` that comes at depth 0 fails with
      "No open #if" on its own line, and so does the whole run. */
  lemma UnmatchedFails(lines: seq<string>, i: nat, env: Env, eval: Evaluator)
    requires i < |lines| && Fold(lines, i, env, eval).Ok?
    requires Depth(lines[..i]) == 0 && NeedsBlock(lines[i])
    ensures Fold(lines, i + 1, env, eval) == Err(NoOpenIf(i + 1))
    ensures Preprocess(lines, env, eval) == Err(NoOpenIf(i + 1))
  {
    var r := Fold(lines, i, env, eval);
    FoldDepth(lines, i, env, eval, r);
    StackDiscipline(r.value, lines[i], i + 1, env, eval);
    ClassifySpec(lines[i], Classify(lines[i]));
    assert Fold(lines, i + 1, env, eval) == Step(r.value, lines[i], i + 1, env, eval);
    FoldErrSticks(lines, i + 1, |lines|, env, eval);
  }

  /** A run that reaches the end fails exactly when the input ends inside a
      block, and then it reports one line per unclosed block. */
  lemma UnclosedIffOpen(lines: seq<string>, env: Env, eval: Evaluator)
    requires Fold(lines, |lines|, env, eval).Ok?
    ensures var r := Preprocess(lines, env, eval);
            (r.Err? <==> Depth(lines) > 0) &&
            (r.Err? ==> r.error.Unclosed? && |r.error.lineNos| == Depth(lines))
  {
    FoldDepth(lines, |lines|, env, eval, Fold(lines, |lines|, env, eval));
    BalanceAtEnd(lines, env, eval);
    assert lines[..|lines|] == lines;
  }

  /** "Unclosed #if" names exactly the openers of the blocks left open: for
      each level `d` its `d`-th line number is the one line of the input that
      opens level `d` and after which the depth never falls below it. */
  lemma UnclosedNamesOpeners(lines: seq<string>, env: Env, eval: Evaluator)
    requires Fold(lines, |lines|, env, eval).Ok? && Preprocess(lines, env, eval).Err?
    ensures var e := Preprocess(lines, env, eval).error;
            e.Unclosed? && |e.lineNos| == Depth(lines) &&
            (forall k :: 0 <= k < |e.lineNos| ==> OpensLevel(lines, e.lineNos[k], k + 1)) &&
            (forall d, p :: 1 <= d <= |e.lineNos| && OpensLevel(lines, p, d) ==> e.lineNos[d - 1] == p)
  {
    UnclosedIffOpen(lines, env, eval);
    BalanceAtEnd(lines, env, eval);
    var e := Preprocess(lines, env, eval).error;
    forall d, p | 1 <= d <= |e.lineNos| && OpensLevel(lines, p, d) ensures e.lineNos[d - 1] == p {
      OpensLevelUnique(lines, e.lineNos[d - 1], p, d);
    }
  }

  /** A block that is closed and then followed by a new one. */
  const Reopened: seq<string> := ["#if a\n", "#endif\n", "#if b\n"]

  /** `Reopened` is well nested, ends at depth 1, and only its line 3 opens
      that level for good. */
  lemma ReopenedShape()
    ensures WellNested(Reopened) && Depth(Reopened) == 1 && OpensLevel(Reopened, 3, 1)
  {
    var lines := Reopened;
    assert StartsWith(lines[0], "#if ") && StartsWith(lines[2], "#if ");
    assert lines[1][..4][1] == 'e' != "#if "[1];
    assert !StartsWith(lines[1], "#if ") && StartsWith(lines[1], "#endif");
    assert lines[..0] == [] && lines[..1] == [lines[0]] && lines[..2] == [lines[0], lines[1]] && lines[..3] == lines;
    assert Depth(lines[..1]) == 1 && Depth(lines[..2]) == 0 && Depth(lines) == 1;
    assert !NeedsBlock(lines[0]) && !NeedsBlock(lines[2]);
  }

  /** An `#if` line whose condition starts and ends with text carries that
      condition. */
  lemma IfLineParses(e: string)
    requires |e| > 0 && !IsSpace(e[0]) && !IsSpace(e[|e| - 1])
    ensures Classify("#if " + e + "\n") == If(e)
  {
    var line := "#if " + e + "\n";
    assert line[..4] == "#if " && line[4..] == e + "\n";
    ClassifySpec(line, Classify(line));
    StripNewline(e);
  }

  /** The conditions `Reopened` carries are `a` and `b`. */
  lemma ReopenedConds()
    ensures Classify(Reopened[0]) == If("a") && Classify(Reopened[2]) == If("b")
    ensures Classify(Reopened[1]) == Endif
  {
    assert Reopened[0] == "#if " + "a" + "\n" && Reopened[2] == "#if " + "b" + "\n";
    IfLineParses("a");
    IfLineParses("b");
    EndifLineParses();
  }

  /** The bare `#endif` line closes a block. */
  lemma EndifLineParses()
    ensures Classify("#endif\n") == Endif
  {
    assert "#endif\n"[..6] == "#endif";
    PrefixesExclusive("#endif\n");
  }

  /** `Reopened`'s conditions yield bools when `a` and `b` do. */
  lemma ReopenedCondsBool(env: Env, eval: Evaluator)
    requires eval("a", env).Bool? && eval("b", env).Bool?
    ensures CondsBool(Reopened, env, eval)
  {
    ReopenedConds();
    forall k | 0 <= k < |Reopened| && IsCond(Reopened[k])
      ensures eval(CondText(Classify(Reopened[k])), env).Bool?
    {
      assert k == 0 || k == 2;
    }
  }

  /** On `Reopened`, when its two conditions yield bools, only the second
      `#if`, on line 3, is reported. */
  lemma ReopenedBlockReportsLastIf(env: Env, eval: Evaluator)
    requires eval("a", env).Bool? && eval("b", env).Bool?
    ensures Preprocess(Reopened, env, eval) == Err(Unclosed([3]))
  {
    ReopenedCondsBool(env, eval);
    ReopenedShape();
    FoldSucceeds(Reopened, |Reopened|, env, eval);
    WellNestedBalances(Reopened, env, eval);
    UnclosedNamesOpeners(Reopened, env, eval);
  }

  /** A line succeeds when it finds the block it needs and its condition, if
      evaluated, yields a bool. */
  lemma StepSucceeds(st: State, line: string, n: nat, env: Env, eval: Evaluator)
    requires NeedsBlock(line) ==> |st.stack| > 1
    requires IsCond(line) && Evaluates(Target(st.stack, line, n)) ==> eval(CondText(Classify(line)), env).Bool?
    ensures Step(st, line, n, env, eval).Ok?
  {
    var d := Classify(line);
    ClassifySpec(line, d);
    if d.If? || d.Elif? || d.Else? {
      var t := st.(stack := Target(st.stack, line, n));
      StepIsDecide(st, line, n, env, eval);
      DecideSpec(t, CondText(d), n, env, eval, Decide(t, CondText(d), n, env, eval));
      if Evaluates(t.stack) {
        assert eval(CondText(d), env).Bool?;
      }
    }
  }

  /** Well-nested input never stops early when every condition it carries
      yields a bool. */
  lemma {:induction false} FoldSucceeds(lines: seq<string>, i: nat, env: Env, eval: Evaluator)
    requires i <= |lines| && WellNested(lines) && CondsBool(lines, env, eval)
    ensures Fold(lines, i, env, eval).Ok?
  {
    if i > 0 {
      FoldSucceeds(lines, i - 1, env, eval);
      var r := Fold(lines, i - 1, env, eval);
      FoldDepth(lines, i - 1, env, eval, r);
      StepSucceeds(r.value, lines[i - 1], i, env, eval);
    }
  }

  /** Well-nested input whose conditions all yield bools is processed without
      error exactly when every block it opens is closed. */
  lemma WellNestedBalances(lines: seq<string>, env: Env, eval: Evaluator)
    requires WellNested(lines) && CondsBool(lines, env, eval)
    ensures Preprocess(lines, env, eval).Ok? <==> Depth(lines) == 0
  {
    FoldSucceeds(lines, |lines|, env, eval);
    UnclosedIffOpen(lines, env, eval);
    FoldDepth(lines, |lines|, env, eval, Fold(lines, |lines|, env, eval));
    assert lines[..|lines|] == lines;
  }
}
