/**
 * The invariants every state reachable by `preprocess` satisfies, one group
 * at a time, each proved preserved by one `Step` and then for every prefix of
 * the input by `FoldKeepsInvariant`.
 */
module Invariants {
  import opened Text
  import opened Preprocessor

  /** No element occurs twice. */
  predicate NoDup(s: seq<nat>)
  {
    forall a, b :: 0 <= a < b < |s| ==> s[a] != s[b]
  }

  /** A frame emits only if the frame below it emits. */
  ghost predicate Inherits(stack: seq<Frame>)
  {
    forall k :: 1 <= k < |stack| ==> stack[k].emit ==> stack[k - 1].emit
  }

  /** Every open block was opened by an `#if` among the first `i` lines, the
      blocks are stacked in the order of their `#if` lines, and a block emits
      only once one of its branches has passed. */
  ghost predicate FramesOk(stack: seq<Frame>, lines: seq<string>, i: nat)
  {
    i <= |lines| &&
    (forall k :: 1 <= k < |stack| ==> 1 <= stack[k].lineNo <= i && Classify(lines[stack[k].lineNo - 1]).If?) &&
    (forall a, b :: 0 <= a < b < |stack| ==> stack[a].lineNo < stack[b].lineNo) &&
    (forall k :: 1 <= k < |stack| ==> stack[k].emit ==> stack[k].seenPass)
  }

  /** The branches taken so far, by the `#if` line of their block: never two for
      one block, and for an open block exactly when it has passed. */
  ghost predicate TakenOk(st: State, i: nat)
  {
    NoDup(st.trace.taken) &&
    (forall t :: t in st.trace.taken ==> t <= i) &&
    (forall k :: 1 <= k < |st.stack| ==> (st.stack[k].lineNo in st.trace.taken <==> st.stack[k].seenPass))
  }

  /** `out` is the sequence of input lines at the increasing line numbers `src`,
      all of them among the first `i` and none of them a directive. */
  ghost predicate Embeds(out: seq<string>, lines: seq<string>, src: seq<nat>, i: nat)
  {
    |src| == |out| && i <= |lines| &&
    (forall k :: 0 <= k < |src| ==> 1 <= src[k] <= i && out[k] == lines[src[k] - 1] && !IsDirective(out[k])) &&
    (forall a, b :: 0 <= a < b < |src| ==> src[a] < src[b])
  }

  /** The blank-line shape of the output: no line is empty text, the first and
      the last line are not blank, and no two blank lines are adjacent. */
  ghost predicate Tidy(out: seq<string>)
  {
    (forall k :: 0 <= k < |out| ==> out[k] != "") &&
    (|out| > 0 ==> !IsBlank(out[0]) && !IsBlank(out[|out| - 1])) &&
    (forall k :: 0 <= k < |out| - 1 ==> IsBlank(out[k]) ==> !IsBlank(out[k + 1]))
  }

  /** The output so far and the held blank. */
  ghost predicate OutputOk(st: State, lines: seq<string>, i: nat)
  {
    Written(st.out, st.trace.src, st.seenNonBlank, st.blank, st.trace.heldAt, lines, i)
  }

  /** The written lines `out` (taken from input lines `src`), whether one was
      non-blank, and the held blank (taken from input line `heldAt`). */
  ghost predicate Written(out: seq<string>, src: seq<nat>, seen: bool, blank: string, heldAt: nat, lines: seq<string>, i: nat)
  {
    Embeds(out, lines, src, i) && Tidy(out) && (seen <==> |out| > 0) && IsBlank(blank) &&
    (blank != "" ==>
       1 <= heldAt <= i && lines[heldAt - 1] == blank && !IsDirective(blank) &&
       (|src| > 0 ==> src[|src| - 1] < heldAt))
  }

  /** The written lines stay valid when the input grows by a line. */
  lemma WrittenGrow(out: seq<string>, src: seq<nat>, seen: bool, blank: string, heldAt: nat, lines: seq<string>, i: nat)
    requires i < |lines| && Written(out, src, seen, blank, heldAt, lines, i)
    ensures Written(out, src, seen, blank, heldAt, lines, i + 1)
  {
  }

  /** `eval` was called only on `#if`, `#elif` and `#else` lines, at most once each. */
  ghost predicate EvaluatedOk(st: State, lines: seq<string>, i: nat)
  {
    i <= |lines| &&
    (forall k :: 0 <= k < |st.trace.evaluated| ==>
       1 <= st.trace.evaluated[k] <= i && IsDirective(lines[st.trace.evaluated[k] - 1]) &&
       !Classify(lines[st.trace.evaluated[k] - 1]).Endif?) &&
    (forall a, b :: 0 <= a < b < |st.trace.evaluated| ==> st.trace.evaluated[a] < st.trace.evaluated[b])
  }

  ghost predicate Inv(st: State, lines: seq<string>, i: nat)
  {
    Inherits(st.stack) && FramesOk(st.stack, lines, i) && TakenOk(st, i) &&
    OutputOk(st, lines, i) && EvaluatedOk(st, lines, i)
  }

  lemma StartInv(lines: seq<string>)
    ensures Inv(Start, lines, 0)
  {
  }

  /** The frames stay valid when the input grows by a line. */
  lemma FramesGrow(s: seq<Frame>, lines: seq<string>, i: nat)
    requires i < |lines| && FramesOk(s, lines, i)
    ensures FramesOk(s, lines, i + 1)
  {
  }

  /** Opening a block on line `i + 1`, an `#if` line. */
  lemma PushKeepsFrames(s: Stack, lines: seq<string>, i: nat)
    requires i < |lines| && Classify(lines[i]).If? && FramesOk(s, lines, i)
    ensures FramesOk(s + [Frame(i + 1, false, false)], lines, i + 1)
  {
    var s' := s + [Frame(i + 1, false, false)];
    forall a, b | 0 <= a < b < |s'| ensures s'[a].lineNo < s'[b].lineNo {
      if b == |s| && a >= 1 {
        assert s'[a] == s[a];
      }
    }
  }

  /** A pushed frame does not emit. */
  lemma PushKeepsInherits(s: seq<Frame>, f: Frame)
    requires Inherits(s) && !f.emit
    ensures Inherits(s + [f])
  {
  }

  /** Closing the innermost block. */
  lemma PopKeepsFrames(s: seq<Frame>, lines: seq<string>, i: nat)
    requires |s| >= 1 && Inherits(s) && FramesOk(s, lines, i)
    ensures Inherits(s[..|s| - 1]) && FramesOk(s[..|s| - 1], lines, i)
  {
  }

  /** Changing the top frame's branch state as `Decide` does. */
  lemma DecideKeepsFrames(s: seq<Frame>, t: Frame, lines: seq<string>, i: nat)
    requires |s| >= 2 && Inherits(s) && FramesOk(s, lines, i)
    requires t.lineNo == s[|s| - 1].lineNo && (t.emit ==> s[|s| - 2].emit && t.seenPass)
    ensures Inherits(s[|s| - 1 := t]) && FramesOk(s[|s| - 1 := t], lines, i)
  {
  }

  /** On an `#if`, `#elif` or `#else` line, a step is the condition's `Decide`. */
  lemma StepIsDecide(st: State, line: string, n: nat, env: Env, eval: Evaluator)
    requires var d := Classify(line); d.If? || d.Elif? || d.Else?
    ensures Step(st, line, n, env, eval) ==
            Decide(st.(stack := Target(st.stack, line, n)), CondText(Classify(line)), n, env, eval)
  {
  }

  /** The stack a condition directive acts on keeps the stack invariants. */
  lemma TargetKeepsFrames(s: Stack, lines: seq<string>, i: nat)
    requires i < |lines| && Inherits(s) && FramesOk(s, lines, i)
    ensures var t := Target(s, lines[i], i + 1); Inherits(t) && FramesOk(t, lines, i + 1)
  {
    if Classify(lines[i]).If? {
      PushKeepsFrames(s, lines, i);
      PushKeepsInherits(s, Frame(i + 1, false, false));
    } else {
      FramesGrow(s, lines, i);
    }
  }

  /** `Decide` keeps the stack invariants. */
  lemma DecideResultKeepsFrames(base: State, expr: string, n: nat, env: Env, eval: Evaluator, lines: seq<string>)
    requires Inherits(base.stack) && FramesOk(base.stack, lines, n)
    requires Decide(base, expr, n, env, eval).Ok?
    ensures var s := Decide(base, expr, n, env, eval).value.stack; Inherits(s) && FramesOk(s, lines, n)
  {
    var r := Decide(base, expr, n, env, eval);
    DecideSpec(base, expr, n, env, eval, r);
    DecideKeepsFrames(base.stack, r.value.stack[|base.stack| - 1], lines, n);
  }

  /** Stack invariants across an `#if`, `#elif` or `#else` line. */
  lemma ConditionKeepsFrames(st: State, lines: seq<string>, i: nat, env: Env, eval: Evaluator, next: State)
    requires i < |lines| && Inherits(st.stack) && FramesOk(st.stack, lines, i)
    requires var d := Classify(lines[i]); d.If? || d.Elif? || d.Else?
    requires Step(st, lines[i], i + 1, env, eval) == Ok(next)
    ensures Inherits(next.stack) && FramesOk(next.stack, lines, i + 1)
  {
    var base := st.(stack := Target(st.stack, lines[i], i + 1));
    TargetKeepsFrames(st.stack, lines, i);
    StepIsDecide(st, lines[i], i + 1, env, eval);
    DecideResultKeepsFrames(base, CondText(Classify(lines[i])), i + 1, env, eval, lines);
  }

  /** Stack invariants across an `#endif` line or a content line. */
  lemma OtherKeepsFrames(st: State, lines: seq<string>, i: nat, env: Env, eval: Evaluator, next: State)
    requires i < |lines| && Inherits(st.stack) && FramesOk(st.stack, lines, i)
    requires var d := Classify(lines[i]); d.Endif? || d.Content?
    requires Step(st, lines[i], i + 1, env, eval) == Ok(next)
    ensures Inherits(next.stack) && FramesOk(next.stack, lines, i + 1)
  {
    FramesGrow(st.stack, lines, i);
    if Classify(lines[i]).Endif? {
      PopKeepsFrames(st.stack, lines, i + 1);
      assert next.stack == st.stack[..|st.stack| - 1];
    } else {
      assert next.stack == st.stack;
    }
  }

  /** Stack invariants across one line. */
  lemma StepKeepsFrames(st: State, lines: seq<string>, i: nat, env: Env, eval: Evaluator, next: State)
    requires i < |lines| && Inherits(st.stack) && FramesOk(st.stack, lines, i)
    requires Step(st, lines[i], i + 1, env, eval) == Ok(next)
    ensures Inherits(next.stack) && FramesOk(next.stack, lines, i + 1)
  {
    var d := Classify(lines[i]);
    if d.Endif? || d.Content? {
      OtherKeepsFrames(st, lines, i, env, eval, next);
    } else {
      ConditionKeepsFrames(st, lines, i, env, eval, next);
    }
  }

  /** The taken-branch log when `Decide` changes the top frame. */
  lemma DecideKeepsTaken(st: State, r: Result<State>, lines: seq<string>, i: nat)
    requires |st.stack| >= 2 && FramesOk(st.stack, lines, i) && TakenOk(st, i)
    requires r.Ok? && |r.value.stack| == |st.stack|
    requires var k := |st.stack| - 1; var top := r.value.stack[k];
      r.value.stack == st.stack[k := top] && top.lineNo == st.stack[k].lineNo &&
      top.seenPass == (st.stack[k].seenPass || top.emit) && (top.emit ==> !st.stack[k].seenPass) &&
      r.value.trace.taken == st.trace.taken + (if top.emit then [top.lineNo] else []) &&
      top.lineNo <= i
    ensures TakenOk(r.value, i)
  {
    var k := |st.stack| - 1;
    var top := r.value.stack[k];
    if top.emit {
      assert forall j :: 1 <= j < k ==> st.stack[j].lineNo < top.lineNo;
      assert top.lineNo !in st.trace.taken;
      forall a, b | 0 <= a < b < |r.value.trace.taken|
        ensures r.value.trace.taken[a] != r.value.trace.taken[b]
      {
        if b == |st.trace.taken| {
          assert r.value.trace.taken[a] in st.trace.taken;
        }
      }
    }
  }

  /** `Decide` keeps the taken-branch log consistent. */
  lemma DecideResultKeepsTaken(base: State, expr: string, n: nat, env: Env, eval: Evaluator, lines: seq<string>)
    requires FramesOk(base.stack, lines, n) && TakenOk(base, n)
    requires Decide(base, expr, n, env, eval).Ok?
    ensures TakenOk(Decide(base, expr, n, env, eval).value, n)
  {
    var r := Decide(base, expr, n, env, eval);
    DecideSpec(base, expr, n, env, eval, r);
    DecideKeepsTaken(base, r, lines, n);
  }

  /** The taken-branch log across an `#if`, `#elif` or `#else` line. */
  lemma ConditionKeepsTaken(st: State, lines: seq<string>, i: nat, env: Env, eval: Evaluator)
    requires i < |lines| && FramesOk(st.stack, lines, i) && TakenOk(st, i)
    requires var d := Classify(lines[i]); d.If? || d.Elif? || d.Else?
    requires Step(st, lines[i], i + 1, env, eval).Ok?
    ensures TakenOk(Step(st, lines[i], i + 1, env, eval).value, i + 1)
  {
    var base := st.(stack := Target(st.stack, lines[i], i + 1));
    TargetKeepsTaken(st, lines, i);
    StepIsDecide(st, lines[i], i + 1, env, eval);
    DecideResultKeepsTaken(base, CondText(Classify(lines[i])), i + 1, env, eval, lines);
  }

  /** The frame a condition directive acts on keeps the taken-branch log
      consistent: a freshly pushed block has not passed and its line is new. */
  lemma TargetKeepsTaken(st: State, lines: seq<string>, i: nat)
    requires i < |lines| && FramesOk(st.stack, lines, i) && TakenOk(st, i)
    ensures var base := st.(stack := Target(st.stack, lines[i], i + 1));
            FramesOk(base.stack, lines, i + 1) && TakenOk(base, i + 1)
  {
    if Classify(lines[i]).If? {
      PushKeepsFrames(st.stack, lines, i);
      assert i + 1 !in st.trace.taken;
    } else {
      FramesGrow(st.stack, lines, i);
    }
  }

  /** The taken-branch log across one line. */
  lemma StepKeepsTaken(st: State, lines: seq<string>, i: nat, env: Env, eval: Evaluator, next: State)
    requires i < |lines| && FramesOk(st.stack, lines, i) && TakenOk(st, i)
    requires Step(st, lines[i], i + 1, env, eval) == Ok(next)
    ensures TakenOk(next, i + 1)
  {
    var r := Ok(next);
    var d := Classify(lines[i]);
    if d.Endif? {
      assert r.value.stack == st.stack[..|st.stack| - 1] && r.value.trace.taken == st.trace.taken;
    } else if d.Content? {
      assert r.value.stack == st.stack && r.value.trace.taken == st.trace.taken;
    } else {
      ConditionKeepsTaken(st, lines, i, env, eval);
    }
  }

  /** The embedding stays valid when the input grows by a line. */
  lemma EmbedsGrow(out: seq<string>, lines: seq<string>, src: seq<nat>, i: nat)
    requires i < |lines| && Embeds(out, lines, src, i)
    ensures Embeds(out, lines, src, i + 1)
  {
  }

  /** Writing input line `j`, which comes after every line written so far. */
  lemma EmbedsAppend(out: seq<string>, lines: seq<string>, src: seq<nat>, i: nat, j: nat)
    requires Embeds(out, lines, src, i) && 1 <= j <= i
    requires (|src| > 0 ==> src[|src| - 1] < j) && !IsDirective(lines[j - 1])
    ensures Embeds(out + [lines[j - 1]], lines, src + [j], i)
  {
    var src' := src + [j];
    forall a, b | 0 <= a < b < |src'| ensures src'[a] < src'[b] {
      if b == |src| && a < |src| - 1 {
        assert src[a] < src[|src| - 1];
      }
    }
  }

  /** Appending a non-blank line keeps the shape. */
  lemma TidyAppend(out: seq<string>, x: string)
    requires Tidy(out) && !IsBlank(x)
    ensures Tidy(out + [x])
  {
  }

  /** Appending a non-empty blank line and then a non-blank one, after a non-blank one, keeps the shape. */
  lemma TidyAppendPair(out: seq<string>, b: string, x: string)
    requires Tidy(out) && |out| > 0 && IsBlank(b) && b != "" && !IsBlank(x)
    ensures Tidy(out + [b] + [x])
  {
    var o := out + [b] + [x];
    forall k | 0 <= k < |o| - 1 ensures IsBlank(o[k]) ==> !IsBlank(o[k + 1]) {
      if k < |out| - 1 {
        assert o[k] == out[k] && o[k + 1] == out[k + 1];
      }
    }
  }

  /** Writing a non-blank line with no held blank to flush before it. */
  lemma AppendKeepsWritten(out: seq<string>, src: seq<nat>, seen: bool, blank: string, heldAt: nat, lines: seq<string>, i: nat)
    requires i < |lines| && Written(out, src, seen, blank, heldAt, lines, i)
    requires !IsDirective(lines[i]) && !IsBlank(lines[i]) && !(seen && blank != "")
    ensures Written(out + [lines[i]], src + [i + 1], true, "", heldAt, lines, i + 1)
  {
    EmbedsGrow(out, lines, src, i);
    if |src| > 0 {
      assert src[|src| - 1] <= i;
    }
    EmbedsAppend(out, lines, src, i + 1, i + 1);
    TidyAppend(out, lines[i]);
  }

  /** Writing a non-blank line after flushing the held blank. */
  lemma FlushKeepsWritten(out: seq<string>, src: seq<nat>, blank: string, heldAt: nat, lines: seq<string>, i: nat)
    requires i < |lines| && Written(out, src, true, blank, heldAt, lines, i)
    requires !IsDirective(lines[i]) && !IsBlank(lines[i]) && blank != ""
    ensures Written(out + [blank] + [lines[i]], src + [heldAt] + [i + 1], true, "", heldAt, lines, i + 1)
  {
    EmbedsGrow(out, lines, src, i);
    EmbedsAppend(out, lines, src, i + 1, heldAt);
    EmbedsAppend(out + [blank], lines, src + [heldAt], i + 1, i + 1);
    TidyAppendPair(out, blank, lines[i]);
  }

  /** Writing a non-blank line after the held blank keeps the output's shape. */
  lemma WriteKeepsOutput(st: State, lines: seq<string>, i: nat)
    requires i < |lines| && OutputOk(st, lines, i)
    requires !IsDirective(lines[i]) && !IsBlank(lines[i])
    ensures OutputOk(Write(st, lines[i], i + 1), lines, i + 1)
  {
    var st' := Write(st, lines[i], i + 1);
    if st.seenNonBlank && st.blank != "" {
      FlushKeepsWritten(st.out, st.trace.src, st.blank, st.trace.heldAt, lines, i);
      assert st'.out == st.out + [st.blank] + [lines[i]];
      assert st'.trace.src == st.trace.src + [st.trace.heldAt] + [i + 1];
    } else {
      AppendKeepsWritten(st.out, st.trace.src, st.seenNonBlank, st.blank, st.trace.heldAt, lines, i);
      assert st'.out == st.out + [lines[i]] && st'.trace.src == st.trace.src + [i + 1];
    }
  }

  /** Holding a blank content line. */
  lemma HoldKeepsOutput(st: State, lines: seq<string>, i: nat)
    requires i < |lines| && OutputOk(st, lines, i)
    requires !IsDirective(lines[i]) && IsBlank(lines[i])
    ensures Written(st.out, st.trace.src, st.seenNonBlank, lines[i], i + 1, lines, i + 1)
  {
  }

  /** A line that is not content under an emitting frame leaves the output,
      the held blank and their sources alone. */
  lemma QuietStep(st: State, line: string, n: nat, env: Env, eval: Evaluator, next: State)
    requires Step(st, line, n, env, eval) == Ok(next)
    requires !(Classify(line).Content? && st.stack[|st.stack| - 1].emit)
    ensures next.out == st.out && next.trace.src == st.trace.src && next.seenNonBlank == st.seenNonBlank
    ensures next.blank == st.blank && next.trace.heldAt == st.trace.heldAt
  {
  }

  /** The output and the held blank across one line. */
  lemma StepKeepsOutput(st: State, lines: seq<string>, i: nat, env: Env, eval: Evaluator, next: State)
    requires i < |lines| && OutputOk(st, lines, i)
    requires Step(st, lines[i], i + 1, env, eval) == Ok(next)
    ensures OutputOk(next, lines, i + 1)
  {
    var line := lines[i];
    if Classify(line).Content? && st.stack[|st.stack| - 1].emit {
      if Strip(line) != "" {
        assert next == Write(st, line, i + 1);
        WriteKeepsOutput(st, lines, i);
      } else {
        assert next == st.(blank := line, trace := st.trace.(heldAt := i + 1));
        HoldKeepsOutput(st, lines, i);
      }
    } else {
      QuietStep(st, line, i + 1, env, eval, next);
      WrittenGrow(st.out, st.trace.src, st.seenNonBlank, st.blank, st.trace.heldAt, lines, i);
    }
  }

  /** The log of `eval` calls stays valid when the input grows by a line. */
  lemma EvaluatedGrow(st: State, next: State, lines: seq<string>, i: nat)
    requires i < |lines| && EvaluatedOk(st, lines, i) && next.trace.evaluated == st.trace.evaluated
    ensures EvaluatedOk(next, lines, i + 1)
  {
  }

  /** Logging a call of `eval` for line `i + 1`, a condition directive. */
  lemma EvaluatedAppend(st: State, next: State, lines: seq<string>, i: nat)
    requires i < |lines| && EvaluatedOk(st, lines, i)
    requires IsDirective(lines[i]) && !Classify(lines[i]).Endif?
    requires next.trace.evaluated == st.trace.evaluated + [i + 1]
    ensures EvaluatedOk(next, lines, i + 1)
  {
    var ev := next.trace.evaluated;
    forall a, b | 0 <= a < b < |ev| ensures ev[a] < ev[b] {
      if b == |st.trace.evaluated| {
        assert ev[a] == st.trace.evaluated[a];
      }
    }
  }

  /** The log of `eval` calls across one line. */
  lemma StepKeepsEvaluated(st: State, lines: seq<string>, i: nat, env: Env, eval: Evaluator, next: State)
    requires i < |lines| && EvaluatedOk(st, lines, i)
    requires Step(st, lines[i], i + 1, env, eval) == Ok(next)
    ensures EvaluatedOk(next, lines, i + 1)
  {
    var d := Classify(lines[i]);
    if d.Endif? || d.Content? {
      assert next.trace.evaluated == st.trace.evaluated;
      EvaluatedGrow(st, next, lines, i);
    } else {
      var base := st.(stack := Target(st.stack, lines[i], i + 1));
      StepIsDecide(st, lines[i], i + 1, env, eval);
      DecideSpec(base, CondText(d), i + 1, env, eval, Ok(next));
      if Evaluates(base.stack) {
        EvaluatedAppend(st, next, lines, i);
      } else {
        EvaluatedGrow(st, next, lines, i);
      }
    }
  }

  /** Induction over the loop: a property of the state and the number of
      lines read that holds at the start and survives every successful step
      holds after every prefix of the input that runs without error. */
  lemma {:induction false} FoldInduction(lines: seq<string>, i: nat, env: Env, eval: Evaluator, P: (State, nat) -> bool, r: Result<State>)
    requires i <= |lines| && r == Fold(lines, i, env, eval) && P(Start, 0)
    requires forall st: State, k: nat {:trigger P(st, k)} ::
               k < |lines| && P(st, k) && Step(st, lines[k], k + 1, env, eval).Ok? ==>
               P(Step(st, lines[k], k + 1, env, eval).value, k + 1)
    ensures r.Ok? ==> P(r.value, i)
  {
    if i > 0 {
      FoldInduction(lines, i - 1, env, eval, P, Fold(lines, i - 1, env, eval));
    }
  }

  /** The stack invariants hold after every prefix of the input. */
  lemma FoldKeepsFrames(lines: seq<string>, i: nat, env: Env, eval: Evaluator, r: Result<State>)
    requires i <= |lines| && r == Fold(lines, i, env, eval) && r.Ok?
    ensures Inherits(r.value.stack) && FramesOk(r.value.stack, lines, i)
  {
    var P := (st: State, k: nat) => Inherits(st.stack) && FramesOk(st.stack, lines, k);
    forall st: State, k: nat | k < |lines| && P(st, k) && Step(st, lines[k], k + 1, env, eval).Ok?
      ensures P(Step(st, lines[k], k + 1, env, eval).value, k + 1)
    {
      StepKeepsFrames(st, lines, k, env, eval, Step(st, lines[k], k + 1, env, eval).value);
    }
    StartInv(lines);
    assert P(Start, 0);
    FoldInduction(lines, i, env, eval, P, r);
  }

  /** The taken-branch log is consistent after every prefix of the input. */
  lemma FoldKeepsTaken(lines: seq<string>, i: nat, env: Env, eval: Evaluator, r: Result<State>)
    requires i <= |lines| && r == Fold(lines, i, env, eval) && r.Ok?
    ensures TakenOk(r.value, i)
  {
    var P := (st: State, k: nat) => Inherits(st.stack) && FramesOk(st.stack, lines, k) && TakenOk(st, k);
    forall st: State, k: nat | k < |lines| && P(st, k) && Step(st, lines[k], k + 1, env, eval).Ok?
      ensures P(Step(st, lines[k], k + 1, env, eval).value, k + 1)
    {
      var next := Step(st, lines[k], k + 1, env, eval).value;
      StepKeepsFrames(st, lines, k, env, eval, next);
      StepKeepsTaken(st, lines, k, env, eval, next);
    }
    StartInv(lines);
    assert P(Start, 0);
    FoldInduction(lines, i, env, eval, P, r);
  }

  /** The output and the held blank are consistent after every prefix of the input. */
  lemma FoldKeepsOutput(lines: seq<string>, i: nat, env: Env, eval: Evaluator, r: Result<State>)
    requires i <= |lines| && r == Fold(lines, i, env, eval) && r.Ok?
    ensures OutputOk(r.value, lines, i)
  {
    var P := (st: State, k: nat) => OutputOk(st, lines, k);
    forall st: State, k: nat | k < |lines| && P(st, k) && Step(st, lines[k], k + 1, env, eval).Ok?
      ensures P(Step(st, lines[k], k + 1, env, eval).value, k + 1)
    {
      StepKeepsOutput(st, lines, k, env, eval, Step(st, lines[k], k + 1, env, eval).value);
    }
    StartInv(lines);
    assert P(Start, 0);
    FoldInduction(lines, i, env, eval, P, r);
  }

  /** The log of `eval` calls is consistent after every prefix of the input. */
  lemma FoldKeepsEvaluated(lines: seq<string>, i: nat, env: Env, eval: Evaluator, r: Result<State>)
    requires i <= |lines| && r == Fold(lines, i, env, eval) && r.Ok?
    ensures EvaluatedOk(r.value, lines, i)
  {
    var P := (st: State, k: nat) => EvaluatedOk(st, lines, k);
    forall st: State, k: nat | k < |lines| && P(st, k) && Step(st, lines[k], k + 1, env, eval).Ok?
      ensures P(Step(st, lines[k], k + 1, env, eval).value, k + 1)
    {
      StepKeepsEvaluated(st, lines, k, env, eval, Step(st, lines[k], k + 1, env, eval).value);
    }
    StartInv(lines);
    assert P(Start, 0);
    FoldInduction(lines, i, env, eval, P, r);
  }

  /** Every state the loop reaches satisfies all the invariants. */
  lemma FoldKeepsInvariant(lines: seq<string>, i: nat, env: Env, eval: Evaluator)
    requires i <= |lines| && Fold(lines, i, env, eval).Ok?
    ensures Inv(Fold(lines, i, env, eval).value, lines, i)
  {
    var r := Fold(lines, i, env, eval);
    FoldKeepsFrames(lines, i, env, eval, r);
    FoldKeepsTaken(lines, i, env, eval, r);
    FoldKeepsOutput(lines, i, env, eval, r);
    FoldKeepsEvaluated(lines, i, env, eval, r);
  }
}
