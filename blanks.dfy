/**
 * An independent, non-incremental statement of the blank-line rule, and the
 * proof that `Preprocess` follows it on input with no directives.
 *
 * A non-blank line is always kept. A blank line is kept only when it is not
 * the empty string, the line right after it is non-blank, and some earlier
 * line is non-blank: of a run of blank lines between text only the last one
 * survives, and a run at the start or the end of the file disappears.
 */
module Blanks {
  import opened Text
  import opened Preprocessor

  predicate HasText(s: seq<string>)
  {
    exists j :: 0 <= j < |s| && !IsBlank(s[j])
  }

  /** Whether line `k` of `s` appears in the output. */
  predicate Keep(s: seq<string>, k: nat)
    requires k < |s|
  {
    !IsBlank(s[k]) || (s[k] != "" && k + 1 < |s| && !IsBlank(s[k + 1]) && HasText(s[..k]))
  }

  /** The kept lines among the first `n` lines of `s`, in order: each one a
      line of that prefix, and never the empty string. */
  function Sel(s: seq<string>, n: nat): (r: seq<string>)
    requires n <= |s|
    ensures forall j :: 0 <= j < |r| ==> r[j] in s[..n] && r[j] != ""
  {
    if n == 0 then []
    else
      assert forall x :: x in s[..n - 1] ==> x in s[..n];
      Sel(s, n - 1) + (if Keep(s, n - 1) then [s[n - 1]] else [])
  }

  /** The output the blank-line rule gives for a whole directive-free file. */
  function Tidied(s: seq<string>): seq<string>
  {
    Sel(s, |s|)
  }

  /** Two sequences that agree on their first `n` lines and on which of them
      are kept select the same lines from them. */
  lemma {:induction false} SelAgree(s: seq<string>, t: seq<string>, n: nat)
    requires n <= |s| && n <= |t|
    requires forall k :: 0 <= k < n ==> s[k] == t[k] && (Keep(s, k) <==> Keep(t, k))
    ensures Sel(s, n) == Sel(t, n)
  {
    if n > 0 {
      SelAgree(s, t, n - 1);
    }
  }

  /** Appending a line can change the verdict only for the line before it. */
  lemma KeepSnoc(p: seq<string>, x: string, k: nat)
    requires k + 1 < |p|
    ensures (p + [x])[k] == p[k] && (Keep(p + [x], k) <==> Keep(p, k))
  {
    assert (p + [x])[..k] == p[..k];
  }

  /** How the rule's output grows by one line: a blank line adds nothing yet; a
      non-blank one adds itself, preceded by the blank line just before it when
      that one is kept. */
  lemma TidiedSnoc(p: seq<string>, x: string)
    ensures Tidied(p + [x]) ==
            if IsBlank(x) then Tidied(p)
            else Tidied(p) +
                 (if |p| > 0 && IsBlank(p[|p| - 1]) && p[|p| - 1] != "" && HasText(p) then [p[|p| - 1]] else []) +
                 [x]
  {
    var q := p + [x];
    assert Tidied(q) == Sel(q, |p|) + (if !IsBlank(x) then [x] else []);
    if |p| > 0 {
      var m := |p| - 1;
      forall k | 0 <= k < m ensures q[k] == p[k] && (Keep(q, k) <==> Keep(p, k)) {
        KeepSnoc(p, x, k);
      }
      SelAgree(q, p, m);
      assert q[..m] == p[..m];
      if IsBlank(p[m]) {
        assert HasText(p[..m]) <==> HasText(p) by {
          if HasText(p) {
            var j :| 0 <= j < |p| && !IsBlank(p[j]);
            assert p[..m][j] == p[j];
          }
          if HasText(p[..m]) {
            var j :| 0 <= j < m && !IsBlank(p[..m][j]);
            assert p[..m][j] == p[j];
          }
        }
      }
    }
  }

  lemma HasTextSnoc(p: seq<string>, x: string)
    ensures HasText(p + [x]) <==> HasText(p) || !IsBlank(x)
  {
    if HasText(p) {
      var j :| 0 <= j < |p| && !IsBlank(p[j]);
      assert (p + [x])[j] == p[j];
    }
    if !IsBlank(x) {
      assert (p + [x])[|p|] == x;
    }
    if HasText(p + [x]) {
      var j :| 0 <= j < |p| + 1 && !IsBlank((p + [x])[j]);
      if j < |p| {
        assert (p + [x])[j] == p[j];
      }
    }
  }

  /** With no directives the state after `i` lines is the sentinel stack, the
      rule's output for those lines, the last line held when it is blank, and
      whether any non-blank line has been seen. */
  lemma {:induction false} DirectiveFreeFold(lines: seq<string>, i: nat, env: Env, eval: Evaluator)
    requires i <= |lines|
    requires forall k :: 0 <= k < |lines| ==> !IsDirective(lines[k])
    ensures Fold(lines, i, env, eval).Ok?
    ensures var st := Fold(lines, i, env, eval).value;
            st.stack == [Sentinel] && st.out == Tidied(lines[..i]) &&
            st.seenNonBlank == HasText(lines[..i]) &&
            st.blank == (if i > 0 && IsBlank(lines[i - 1]) then lines[i - 1] else "")
  {
    if i > 0 {
      DirectiveFreeFold(lines, i - 1, env, eval);
      var p, x := lines[..i - 1], lines[i - 1];
      assert lines[..i] == p + [x];
      TidiedSnoc(p, x);
      HasTextSnoc(p, x);
      assert Classify(x).Content?;
    }
  }

  /** On a file with no directives, `preprocess` is exactly the blank-line rule. */
  lemma PlainFileIsTidied(lines: seq<string>, env: Env, eval: Evaluator)
    requires forall k :: 0 <= k < |lines| ==> !IsDirective(lines[k])
    ensures Preprocess(lines, env, eval) == Ok(Tidied(lines))
  {
    DirectiveFreeFold(lines, |lines|, env, eval);
    assert lines[..|lines|] == lines;
  }
}
