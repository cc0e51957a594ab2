/**
 * What `preprocess` promises, stated over `Step` (one line) and `Preprocess`
 * (a whole file), and proved from the invariants.
 */
module Properties {
  import opened Text
  import opened Preprocessor
  import opened Invariants

  /** Stack discipline of one line: `#if` pushes exactly one frame, `#endif`
      pops exactly one or fails with "No open #if" when only the sentinel is
      open, `#elif` and `#else` fail the same way and otherwise change only the
      top frame's branch state, content lines leave the stack alone.  The
      sentinel stays at the bottom (the type `Stack` says so). */
  lemma StackDiscipline(st: State, line: string, n: nat, env: Env, eval: Evaluator)
    ensures var r := Step(st, line, n, env, eval);
            var s := st.stack;
            var d := Classify(line);
            (d.If? && r.Ok? ==>
               |r.value.stack| == |s| + 1 && r.value.stack[..|s|] == s && r.value.stack[|s|].lineNo == n) &&
            ((d.Elif? || d.Else?) && |s| == 1 ==> r == Err(NoOpenIf(n))) &&
            ((d.Elif? || d.Else?) && r.Ok? ==>
               |r.value.stack| == |s| && r.value.stack[..|s| - 1] == s[..|s| - 1] &&
               r.value.stack[|s| - 1].lineNo == s[|s| - 1].lineNo) &&
            (d.Endif? && |s| == 1 ==> r == Err(NoOpenIf(n))) &&
            (d.Endif? && |s| > 1 ==> r.Ok? && r.value.stack == s[..|s| - 1]) &&
            (d.Content? ==> r.Ok? && r.value.stack == s) &&
            (r.Ok? ==> r.value.stack[0] == Sentinel)
  {
    var d := Classify(line);
    if !d.Endif? && !d.Content? {
      var t := Target(st.stack, line, n);
      var r := Decide(st.(stack := t), CondText(d), n, env, eval);
      StepIsDecide(st, line, n, env, eval);
      DecideSpec(st.(stack := t), CondText(d), n, env, eval, r);
      if r.Ok? {
        assert r.value.stack[..|t| - 1] == t[..|t| - 1];
        if d.If? {
          assert t[..|st.stack|] == st.stack;
        }
      }
    }
  }

  /** Under the inheritance invariant the top frame emits exactly when every
      frame of the stack emits, so testing the top alone is enough. */
  lemma {:induction false} TopEmitsIffAllEmit(stack: seq<Frame>)
    requires |stack| >= 1 && Inherits(stack)
    ensures stack[|stack| - 1].emit <==> forall k :: 0 <= k < |stack| ==> stack[k].emit
  {
    if |stack| > 1 {
      var below := stack[..|stack| - 1];
      assert Inherits(below);
      TopEmitsIffAllEmit(below);
      if stack[|stack| - 1].emit {
        forall k | 0 <= k < |stack| ensures stack[k].emit {
          if k < |stack| - 1 {
            assert below[k] == stack[k];
          }
        }
      }
    }
  }

  /** A content line is written or held only when every enclosing block emits;
      inside a suppressed block it changes nothing at all. */
  lemma ContentNeedsEveryBlock(lines: seq<string>, i: nat, env: Env, eval: Evaluator)
    requires i < |lines| && Fold(lines, i, env, eval).Ok? && !IsDirective(lines[i])
    ensures var st := Fold(lines, i, env, eval).value;
            var r := Step(st, lines[i], i + 1, env, eval);
            ((exists k :: 0 <= k < |st.stack| && !st.stack[k].emit) ==> r == Ok(st)) &&
            ((forall k :: 0 <= k < |st.stack| ==> st.stack[k].emit) ==>
               r == Ok(if IsBlank(lines[i]) then st.(blank := lines[i], trace := st.trace.(heldAt := i + 1))
                       else Write(st, lines[i], i + 1)))
  {
    FoldKeepsFrames(lines, i, env, eval, Fold(lines, i, env, eval));
    var st := Fold(lines, i, env, eval).value;
    TopEmitsIffAllEmit(st.stack);
  }

  /** Short-circuit evaluation of one `#if`, `#elif` or `#else`: `eval` is
      called exactly when the parent frame emits and the block has not passed;
      when it is not called the line cannot fail, whatever its expression; when
      it is, a non-bool result is a type error and an exception propagates. */
  lemma ShortCircuit(st: State, line: string, n: nat, env: Env, eval: Evaluator)
    requires var d := Classify(line); d.If? || d.Elif? || d.Else?
    requires |Target(st.stack, line, n)| >= 2
    ensures var t := Target(st.stack, line, n);
            var r := Step(st, line, n, env, eval);
            var e := eval(CondText(Classify(line)), env);
            (!Evaluates(t) ==>
               r.Ok? && r.value.trace.evaluated == st.trace.evaluated && !r.value.stack[|t| - 1].emit) &&
            (Evaluates(t) && e.Bool? ==>
               r.Ok? && r.value.trace.evaluated == st.trace.evaluated + [n] &&
               r.value.stack[|t| - 1].emit == e.value) &&
            (Evaluates(t) && e.NonBool? ==> r == Err(ConditionType(n))) &&
            (Evaluates(t) && e.SyntaxErr? ==> r == Err(ConditionSyntax(n))) &&
            (Evaluates(t) && e.Raised? ==> r == Err(ConditionRaised(n)))
  {
    var t := Target(st.stack, line, n);
    assert Step(st, line, n, env, eval) == Decide(st.(stack := t), CondText(Classify(line)), n, env, eval);
  }

  /** The frame a directive acts on has a parent that emits only when every
      frame below it emits. */
  lemma TargetParentEmits(stack: Stack, line: string, n: nat)
    requires Inherits(stack)
    requires |Target(stack, line, n)| >= 2
    ensures var t := Target(stack, line, n);
            t[|t| - 2].emit <==> forall k :: 0 <= k < |t| - 1 ==> t[k].emit
  {
    var t := Target(stack, line, n);
    var below := t[..|t| - 1];
    if Classify(line).If? {
      assert below == stack;
    } else {
      assert Inherits(below) by {
        forall k | 1 <= k < |below| ensures below[k].emit ==> below[k - 1].emit {
          assert below[k] == stack[k] && below[k - 1] == stack[k - 1];
        }
      }
    }
    TopEmitsIffAllEmit(below);
    forall k | 0 <= k < |t| - 1 ensures below[k] == t[k] { }
  }

  /** A directive inside a suppressed block is never evaluated and never fails:
      if any frame below the one it acts on does not emit, the line leaves the
      evaluation log unchanged and turns its branch off. */
  lemma SuppressedNeverEvaluated(lines: seq<string>, i: nat, env: Env, eval: Evaluator)
    requires i < |lines| && Fold(lines, i, env, eval).Ok?
    requires var d := Classify(lines[i]); d.If? || d.Elif? || d.Else?
    requires var t := Target(Fold(lines, i, env, eval).value.stack, lines[i], i + 1);
             |t| >= 2 && exists k :: 0 <= k < |t| - 1 && !t[k].emit
    ensures var st := Fold(lines, i, env, eval).value;
            var r := Step(st, lines[i], i + 1, env, eval);
            r.Ok? && r.value.trace.evaluated == st.trace.evaluated
  {
    var r := Fold(lines, i, env, eval);
    FoldKeepsFrames(lines, i, env, eval, Fold(lines, i, env, eval));
    SuppressedStep(r.value, lines[i], i + 1, env, eval);
  }

  /** One directive line, from any state whose frames inherit. */
  lemma SuppressedStep(st: State, line: string, n: nat, env: Env, eval: Evaluator)
    requires Inherits(st.stack)
    requires var d := Classify(line); d.If? || d.Elif? || d.Else?
    requires var t := Target(st.stack, line, n);
             |t| >= 2 && exists k :: 0 <= k < |t| - 1 && !t[k].emit
    ensures var r := Step(st, line, n, env, eval);
            r.Ok? && r.value.trace.evaluated == st.trace.evaluated
  {
    TargetParentEmits(st.stack, line, n);
    ShortCircuit(st, line, n, env, eval);
  }

  /** The only ways one line can fail: an `#endif`, `#elif` or `#else` with no
      open block, or a condition that was evaluated and did not yield a bool. */
  lemma StepFailures(st: State, line: string, n: nat, env: Env, eval: Evaluator)
    requires Step(st, line, n, env, eval).Err?
    ensures var d := Classify(line);
            var r := Step(st, line, n, env, eval);
            (r.error.NoOpenIf? && r.error.lineNo == n && |st.stack| == 1 && (d.Endif? || d.Elif? || d.Else?)) ||
            ((d.If? || d.Elif? || d.Else?) && Evaluates(Target(st.stack, line, n)) &&
             !eval(CondText(d), env).Bool? && r.error.lineNo == n && !r.error.NoOpenIf?)
  {
    var d := Classify(line);
    if !d.Endif? && !d.Content? {
      var t := Target(st.stack, line, n);
      assert Step(st, line, n, env, eval) == Decide(st.(stack := t), CondText(d), n, env, eval);
    }
  }

  /** Once a block has passed, its later `#elif` and `#else` lines turn it off
      without calling `eval`; a block's `seen_pass` is never reset; and a branch
      turns on only when its condition was evaluated and held. */
  lemma BranchSelection(st: State, line: string, n: nat, env: Env, eval: Evaluator)
    requires var d := Classify(line); d.If? || d.Elif? || d.Else?
    requires Step(st, line, n, env, eval).Ok?
    ensures var t := Target(st.stack, line, n);
            var k := |t| - 1;
            var r := Step(st, line, n, env, eval).value;
            |r.stack| == |t| &&
            (t[k].seenPass ==> r.stack[k] == t[k].(emit := false) && r.trace.evaluated == st.trace.evaluated) &&
            r.stack[k].seenPass == (t[k].seenPass || r.stack[k].emit) &&
            (r.stack[k].emit ==> Evaluates(t) && eval(CondText(Classify(line)), env) == Bool(true))
  {
    var t := Target(st.stack, line, n);
    assert Step(st, line, n, env, eval) == Decide(st.(stack := t), CondText(Classify(line)), n, env, eval);
  }

  /** At most one branch of every block is taken: over a whole run the log of
      taken branches, each recorded by its block's `#if` line, has no repeats. */
  lemma AtMostOneBranchPerBlock(lines: seq<string>, i: nat, env: Env, eval: Evaluator)
    requires i <= |lines| && Fold(lines, i, env, eval).Ok?
    ensures NoDup(Fold(lines, i, env, eval).value.trace.taken)
  {
    FoldKeepsTaken(lines, i, env, eval, Fold(lines, i, env, eval));
  }

  /** The output is an order-preserving selection of the input's lines, none of
      them a directive. */
  lemma OutputIsFilteredInput(lines: seq<string>, env: Env, eval: Evaluator)
    requires Preprocess(lines, env, eval).Ok?
    ensures var out := Preprocess(lines, env, eval).value;
            (exists src :: Embeds(out, lines, src, |lines|)) &&
            (forall k :: 0 <= k < |out| ==> !IsDirective(out[k]))
  {
    FoldKeepsOutput(lines, |lines|, env, eval, Fold(lines, |lines|, env, eval));
    var st := Fold(lines, |lines|, env, eval).value;
    assert Embeds(st.out, lines, st.trace.src, |lines|);
  }

  /** Blank-line shape of the output: it neither starts nor ends with a blank
      line and never holds two blank lines in a row, so a blank line is written
      only between two non-blank ones. */
  lemma OutputShape(lines: seq<string>, env: Env, eval: Evaluator)
    requires Preprocess(lines, env, eval).Ok?
    ensures var out := Preprocess(lines, env, eval).value;
            Tidy(out) &&
            (forall k :: 0 <= k < |out| && IsBlank(out[k]) ==>
               0 < k < |out| - 1 && !IsBlank(out[k - 1]) && !IsBlank(out[k + 1]))
  {
    FoldKeepsOutput(lines, |lines|, env, eval, Fold(lines, |lines|, env, eval));
    var out := Preprocess(lines, env, eval).value;
    forall k | 0 <= k < |out| && IsBlank(out[k])
      ensures 0 < k < |out| - 1 && !IsBlank(out[k - 1]) && !IsBlank(out[k + 1])
    {
    }
  }
}
