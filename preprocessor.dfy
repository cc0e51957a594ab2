/**
 * The conditional-directive preprocessor `preprocess` of split-versions.py.
 *
 * The input file is a sequence of lines (each line as Python's file iteration
 * yields it, terminator included); the output file is the sequence of lines
 * written to it, and its text is their concatenation.  The engine keeps a stack
 * of condition frames whose bottom is a sentinel, a held blank line and a flag
 * telling whether a non-blank line has been written.
 *
 * `Step` and `Fold` specify one line and a prefix of the input as functions;
 * `PreprocessLines` is the loop of the source and is proved to compute
 * `Preprocess`.
 */
module Preprocessor {
  import opened Text

  /** The locals handed to `eval`: variable name to value. */
  type Env = map<string, int>

  /** What Python's `eval(expr, locals=env)` does with a condition, as far as the engine can tell. */
  datatype EvalResult =
    | Bool(value: bool)  // the expression evaluated to True or False
    | NonBool            // it evaluated to a value that is not a bool
    | SyntaxErr          // it raised SyntaxError
    | Raised             // it raised any other exception (a NameError, say)

  /** The condition evaluator: Python's `eval`, left abstract. */
  type Evaluator = (string, Env) -> EvalResult

  /** The exceptions `preprocess` raises, by kind and line number. */
  datatype Error =
    | NoOpenIf(lineNo: nat)        // #endif, #elif or #else with only the sentinel open
    | Unclosed(lineNos: seq<nat>)  // end of input with blocks open: their #if lines, bottom to top
    | ConditionSyntax(lineNo: nat) // eval raised SyntaxError
    | ConditionType(lineNo: nat)   // eval returned a non-bool (TypeError)
    | ConditionRaised(lineNo: nat) // eval raised something else, which propagates

  datatype Result<T> = Ok(value: T) | Err(error: Error)

  /** `ConditionStackFrame`: the `#if` line that opened the block, whether the
      current branch emits, and whether some branch of the block has passed. */
  datatype Frame = Frame(lineNo: nat, emit: bool, seenPass: bool)

  /** The permanent bottom frame: outside every block, emitting, already passed. */
  const Sentinel := Frame(0, true, true)

  /** How one line is classified, by prefix of the unstripped line. */
  datatype Directive = If(expr: string) | Elif(expr: string) | Else | Endif | Content

  /** A line that one of the four directive prefixes claims. */
  predicate IsDirective(line: string)
  {
    StartsWith(line, "#if ") || StartsWith(line, "#elif ") ||
    StartsWith(line, "#else") || StartsWith(line, "#endif")
  }

  /** No line starts with two of the four directive prefixes: each pair differs
      at a position both reach, so the order of the tests never decides. */
  lemma PrefixesExclusive(line: string)
    ensures StartsWith(line, "#if ") ==> !StartsWith(line, "#elif ") && !StartsWith(line, "#else") && !StartsWith(line, "#endif")
    ensures StartsWith(line, "#elif ") ==> !StartsWith(line, "#else") && !StartsWith(line, "#endif")
    ensures StartsWith(line, "#else") ==> !StartsWith(line, "#endif")
  {
    if StartsWith(line, "#if ") {
      assert line[1] == line[..4][1] == 'i';
    }
    if StartsWith(line, "#elif ") || StartsWith(line, "#else") {
      assert line[1] == 'e' && line[2] == 'l' by {
        assert line[..5][1] == line[1] && line[..5][2] == line[2];
      }
    }
    if StartsWith(line, "#elif ") {
      assert line[3] == line[..6][3] == 'i';
    }
    if StartsWith(line, "#endif") {
      assert line[1] == line[..6][1] == 'e' && line[2] == line[..6][2] == 'n';
    }
  }

  /** The classification chain of the loop body. */
  function Classify(line: string): (d: Directive)
    ensures d.Content? <==> !IsDirective(line)
    ensures d.If? ==> StartsWith(line, "#if ")
    ensures d.Elif? ==> StartsWith(line, "#elif ") && !StartsWith(line, "#if ")
  {
    if StartsWith(line, "#if ") then If(Strip(line[4..]))
    else if StartsWith(line, "#elif ") then Elif(Strip(line[6..]))
    else if StartsWith(line, "#else") then Else
    else if StartsWith(line, "#endif") then Endif
    else Content
  }

  /** What `Classify` does: a line is the directive whose prefix it starts
      with, and content when it starts with none; `#if` and `#elif` carry the
      rest of the line after the prefix, stripped. */
  lemma ClassifySpec(line: string, d: Directive)
    requires d == Classify(line)
    ensures d.If? <==> StartsWith(line, "#if ")
    ensures d.Elif? <==> StartsWith(line, "#elif ")
    ensures d.Else? <==> StartsWith(line, "#else")
    ensures d.Endif? <==> StartsWith(line, "#endif")
    ensures d.Content? <==> !IsDirective(line)
    ensures d.If? ==> d.expr == Strip(line[4..])
    ensures d.Elif? ==> d.expr == Strip(line[6..])
  {
    PrefixesExclusive(line);
  }

  /** Bookkeeping that the source does not keep but that lets its behaviour be
      stated: the line numbers at which `eval` was called, the `#if` line of
      every block each time one of its branches was taken, the input line number
      of every output line, and the line number of the held blank. */
  datatype Trace = Trace(evaluated: seq<nat>, taken: seq<nat>, src: seq<nat>, heldAt: nat)

  /** A condition stack: never empty, the sentinel at the bottom. */
  type Stack = s: seq<Frame> | |s| >= 1 && s[0] == Sentinel witness [Sentinel]

  /** The engine's state between two lines. */
  datatype State = State(stack: Stack, blank: string, seenNonBlank: bool, out: seq<string>, trace: Trace)

  const Start := State([Sentinel], "", false, [], Trace([], [], [], 0))

  /** The frame the directive on line `n` acts on, and below it the frame it
      inherits from: for `#if` the stack after the push. */
  function Target(stack: Stack, line: string, n: nat): Stack
  {
    if Classify(line).If? then stack + [Frame(n, false, false)] else stack
  }

  /** Whether `eval` gets called: the parent frame emits and the top frame has not passed. */
  predicate Evaluates(stack: seq<Frame>)
  {
    |stack| >= 2 && stack[|stack| - 2].emit && !stack[|stack| - 1].seenPass
  }

  /** The condition of an `#if`, `#elif` or `#else` on line `n`, evaluated for
      the top frame.  `eval` is consulted only when `Evaluates(st.stack)`; otherwise
      the branch is off without a call.  Only the top frame changes: it emits
      exactly when the condition was evaluated and held, and it has passed once
      any of its branches has emitted. */
  function Decide(st: State, expr: string, n: nat, env: Env, eval: Evaluator): Result<State>
  {
    if |st.stack| <= 1 then Err(NoOpenIf(n))
    else
      var inh := st.stack[|st.stack| - 2];
      var top := st.stack[|st.stack| - 1];
      if !inh.emit || top.seenPass then
        Ok(st.(stack := st.stack[|st.stack| - 1 := top.(emit := false)]))
      else
        var tr := st.trace.(evaluated := st.trace.evaluated + [n]);
        match eval(expr, env)
        case Bool(b) =>
          Ok(st.(stack := st.stack[|st.stack| - 1 := top.(emit := b, seenPass := top.seenPass || b)],
                 trace := tr.(taken := if b then tr.taken + [top.lineNo] else tr.taken)))
        case NonBool => Err(ConditionType(n))
        case SyntaxErr => Err(ConditionSyntax(n))
        case Raised => Err(ConditionRaised(n))
  }

  /** What `Decide` does: with only the sentinel open the directive has no
      block; `eval` is consulted, and logged, only when the parent frame emits
      and the top frame has not passed; a bool result sets the top frame's
      `emit`, anything else is an error; only the top frame changes, and once
      it has passed it stays passed. */
  lemma DecideSpec(st: State, expr: string, n: nat, env: Env, eval: Evaluator, r: Result<State>)
    requires r == Decide(st, expr, n, env, eval)
    ensures r.Ok? ==> |st.stack| >= 2 && |r.value.stack| == |st.stack|
    ensures |st.stack| == 1 ==> r == Err(NoOpenIf(n))
    ensures |st.stack| >= 2 && !Evaluates(st.stack) ==> r.Ok? && !r.value.stack[|st.stack| - 1].emit
    ensures Evaluates(st.stack) ==>
      match eval(expr, env)
      case Bool(b) => r.Ok? && r.value.stack[|st.stack| - 1].emit == b
      case NonBool => r == Err(ConditionType(n))
      case SyntaxErr => r == Err(ConditionSyntax(n))
      case Raised => r == Err(ConditionRaised(n))
    ensures r.Ok? ==>
      var k := |st.stack| - 1;
      var top := r.value.stack[k];
      r.value.stack == st.stack[k := top] && top.lineNo == st.stack[k].lineNo &&
      top.seenPass == (st.stack[k].seenPass || top.emit) && (top.emit ==> Evaluates(st.stack))
    ensures r.Ok? ==>
      r.value.blank == st.blank && r.value.seenNonBlank == st.seenNonBlank && r.value.out == st.out &&
      r.value.trace.src == st.trace.src && r.value.trace.heldAt == st.trace.heldAt
    ensures r.Ok? ==>
      r.value.trace.evaluated == st.trace.evaluated + (if Evaluates(st.stack) then [n] else [])
    ensures r.Ok? ==>
      var top := r.value.stack[|st.stack| - 1];
      r.value.trace.taken == st.trace.taken + (if top.emit then [top.lineNo] else [])
  {
  }

  /** A non-blank content line `line` (line number `n`) written while emitting. */
  function Write(st: State, line: string, n: nat): State
  {
    var flush := st.seenNonBlank && st.blank != "";
    st.(blank := "", seenNonBlank := true,
        out := st.out + (if flush then [st.blank] else []) + [line],
        trace := st.trace.(src := st.trace.src + (if flush then [st.trace.heldAt] else []) + [n]))
  }

  /** The expression handed to `eval`: `#else` evaluates the literal `True`. */
  function CondText(d: Directive): string
    requires d.If? || d.Elif? || d.Else?
  {
    if d.Else? then "True" else d.expr
  }

  /** One iteration of the loop, on line number `n`. */
  function Step(st: State, line: string, n: nat, env: Env, eval: Evaluator): (r: Result<State>)
  {
    var d := Classify(line);
    if d.Endif? then
      if |st.stack| <= 1 then Err(NoOpenIf(n))
      else Ok(st.(stack := st.stack[..|st.stack| - 1]))
    else if d.Content? then
      if !st.stack[|st.stack| - 1].emit then Ok(st)
      else if Strip(line) == "" then Ok(st.(blank := line, trace := st.trace.(heldAt := n)))
      else Ok(Write(st, line, n))
    else
      Decide(st.(stack := Target(st.stack, line, n)), CondText(d), n, env, eval)
  }

  /** The state after the first `i` lines, or the error that stopped the loop. */
  function Fold(lines: seq<string>, i: nat, env: Env, eval: Evaluator): (r: Result<State>)
    requires i <= |lines|
  {
    if i == 0 then Ok(Start)
    else
      match Fold(lines, i - 1, env, eval)
      case Err(e) => Err(e)
      case Ok(st) => Step(st, lines[i - 1], i, env, eval)
  }

  /** An exception ends the loop: once the fold fails it fails with the same error. */
  lemma {:induction false} FoldErrSticks(lines: seq<string>, i: nat, j: nat, env: Env, eval: Evaluator)
    requires i <= j <= |lines| && Fold(lines, i, env, eval).Err?
    ensures Fold(lines, j, env, eval) == Fold(lines, i, env, eval)
    decreases j
  {
    if j > i {
      FoldErrSticks(lines, i, j - 1, env, eval);
    }
  }

  /** `[frame.line_no for frame in frames]` */
  function LineNos(frames: seq<Frame>): seq<nat>
  {
    seq(|frames|, k requires 0 <= k < |frames| => frames[k].lineNo)
  }

  /** The whole of `preprocess`: the written lines, or the exception it raises. */
  function Preprocess(lines: seq<string>, env: Env, eval: Evaluator): Result<seq<string>>
  {
    match Fold(lines, |lines|, env, eval)
    case Err(e) => Err(e)
    case Ok(st) => if |st.stack| > 1 then Err(Unclosed(LineNos(st.stack[1..]))) else Ok(st.out)
  }

  /** Lines 80-104 of split-versions.py: evaluate the condition of a directive on line `lineNo` for
      the top frame of `stack`, short-circuiting as the source does. */
  method ApplyCondition(stack: seq<Frame>, expr: string, lineNo: nat, env: Env, eval: Evaluator, ghost st: State)
    returns (r: Result<Stack>, ghost trace: Trace)
    requires st.stack == stack && |stack| >= 1
    ensures r.Err? <==> Decide(st, expr, lineNo, env, eval).Err?
    ensures r.Err? ==> r.error == Decide(st, expr, lineNo, env, eval).error
    ensures r.Ok? ==> Decide(st, expr, lineNo, env, eval) == Ok(st.(stack := r.value, trace := trace))
  {
    trace := st.trace;
    if |stack| <= 1 {
      return Err(NoOpenIf(lineNo)), trace;
    }
    var inh, top := stack[|stack| - 2], stack[|stack| - 1];
    var result := false;
    if inh.emit && !top.seenPass {
      trace := trace.(evaluated := trace.evaluated + [lineNo]);
      match eval(expr, env)
      case Bool(b) => result := b;
      case NonBool => return Err(ConditionType(lineNo)), trace;
      case SyntaxErr => return Err(ConditionSyntax(lineNo)), trace;
      case Raised => return Err(ConditionRaised(lineNo)), trace;
    }
    top := top.(emit := result);
    if result {
      top := top.(seenPass := true);
      trace := trace.(taken := trace.taken + [top.lineNo]);
    }
    r := Ok(stack[|stack| - 1 := top]);
  }

  /** Lines 67-79 of split-versions.py: a content line while the top frame emits; a blank one is held,
      a non-blank one is written after the held blank, if a non-blank line was
      written before. */
  method EmitLine(line: string, lineNo: nat, blank: string, seenNonBlank: bool, out: seq<string>, ghost trace: Trace)
    returns (blank': string, seenNonBlank': bool, out': seq<string>, ghost trace': Trace)
    ensures var st := State([Sentinel], blank, seenNonBlank, out, trace);
            var st' := if Strip(line) == "" then st.(blank := line, trace := st.trace.(heldAt := lineNo))
                       else Write(st, line, lineNo);
            st'.blank == blank' && st'.seenNonBlank == seenNonBlank' && st'.out == out'
    ensures var st := State([Sentinel], blank, seenNonBlank, out, trace);
            var st' := if Strip(line) == "" then st.(blank := line, trace := st.trace.(heldAt := lineNo))
                       else Write(st, line, lineNo);
            st'.trace == trace'
  {
    blank', seenNonBlank', out', trace' := blank, seenNonBlank, out, trace;
    if Strip(line) == "" {
      blank' := line;
      trace' := trace'.(heldAt := lineNo);
    } else {
      if seenNonBlank && blank != "" {
        out' := out' + [blank];
        trace' := trace'.(src := trace'.src + [trace.heldAt]);
      }
      out' := out' + [line];
      trace' := trace'.(src := trace'.src + [lineNo]);
      blank' := "";
      seenNonBlank' := true;
    }
  }

  /** The loop of `preprocess`, updating the stack, the held blank and the output in place. */
  method PreprocessLines(lines: seq<string>, env: Env, eval: Evaluator) returns (r: Result<seq<string>>)
    ensures r == Preprocess(lines, env, eval)
  {
    var stack: Stack := [Sentinel];
    var blank := "";
    var seenNonBlank := false;
    var out: seq<string> := [];
    ghost var trace := Start.trace;
    var lineNo := 0;
    while lineNo < |lines|
      invariant lineNo <= |lines|
      invariant Fold(lines, lineNo, env, eval) == Ok(State(stack, blank, seenNonBlank, out, trace))
    {
      ghost var before := State(stack, blank, seenNonBlank, out, trace);
      var line := lines[lineNo];
      lineNo := lineNo + 1;
      assert Fold(lines, lineNo, env, eval) == Step(before, line, lineNo, env, eval);
      var hasExpr := false;
      var expr := "";
      if StartsWith(line, "#if ") {
        assert Classify(line) == If(Strip(line[4..]));
        stack := stack + [Frame(lineNo, false, false)];
        hasExpr, expr := true, Strip(line[4..]);
      } else if StartsWith(line, "#elif ") {
        assert Classify(line) == Elif(Strip(line[6..]));
        hasExpr, expr := true, Strip(line[6..]);
      } else if StartsWith(line, "#else") {
        assert Classify(line) == Else;
        hasExpr, expr := true, "True";
      } else if StartsWith(line, "#endif") {
        assert Classify(line) == Endif;
        if |stack| <= 1 {
          FoldErrSticks(lines, lineNo, |lines|, env, eval);
          return Err(NoOpenIf(lineNo));
        }
        stack := stack[..|stack| - 1];
        continue;
      } else if stack[|stack| - 1].emit {
        assert Classify(line) == Content;
        blank, seenNonBlank, out, trace := EmitLine(line, lineNo, blank, seenNonBlank, out, trace);
      }
      if hasExpr {
        ghost var mid := before.(stack := stack);
        assert stack == Target(before.stack, line, lineNo) && expr == CondText(Classify(line));
        var res;
        res, trace := ApplyCondition(stack, expr, lineNo, env, eval, mid);
        if res.Err? {
          FoldErrSticks(lines, lineNo, |lines|, env, eval);
          return Err(res.error);
        }
        stack := res.value;
      }
    }
    if |stack| > 1 {
      return Err(Unclosed(LineNos(stack[1..])));
    }
    return Ok(out);
  }
}
