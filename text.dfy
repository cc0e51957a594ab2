/** Character and string helpers with the meaning Python's `str` methods give them. */
module Text {

  /** The characters for which Python's `str.isspace()` holds: those `str.strip()` removes. */
  const Whitespace: set<char> := {
    ' ', '\t', '\n', '\r', '\U{000B}', '\U{000C}', '\U{001C}', '\U{001D}', '\U{001E}', '\U{001F}',
    '\U{0085}', '\U{00A0}', '\U{1680}', '\U{2000}', '\U{2001}', '\U{2002}', '\U{2003}', '\U{2004}',
    '\U{2005}', '\U{2006}', '\U{2007}', '\U{2008}', '\U{2009}', '\U{200A}', '\U{2028}', '\U{2029}',
    '\U{202F}', '\U{205F}', '\U{3000}'
  }

  predicate IsSpace(c: char)
  {
    c in Whitespace
  }

  /** A whitespace-only string (the empty string included). */
  predicate IsBlank(s: string)
  {
    forall i :: 0 <= i < |s| ==> IsSpace(s[i])
  }

  /** `s.startswith(p)` */
  predicate StartsWith(s: string, p: string)
  {
    |p| <= |s| && s[..|p|] == p
  }

  /** `s.endswith(p)` */
  predicate EndsWith(s: string, p: string)
  {
    |p| <= |s| && s[|s| - |p|..] == p
  }

  /** Whitespace-only strings are closed under concatenation and its inverse. */
  lemma BlankConcat(a: string, b: string)
    ensures IsBlank(a + b) <==> IsBlank(a) && IsBlank(b)
  {
    if IsBlank(a + b) {
      forall i | 0 <= i < |b| ensures IsSpace(b[i]) { assert b[i] == (a + b)[|a| + i]; }
      forall i | 0 <= i < |a| ensures IsSpace(a[i]) { assert a[i] == (a + b)[i]; }
    }
  }

  /** `r` is `s` with a whitespace-only prefix and a whitespace-only suffix cut off. */
  predicate Trims(s: string, r: string)
  {
    exists a, b :: 0 <= a <= b <= |s| && r == s[a..b] && IsBlank(s[..a]) && IsBlank(s[b..])
  }

  /** Every string trims to itself, cutting nothing. */
  lemma TrimsNothing(s: string)
    ensures Trims(s, s)
  {
    assert s == s[0..|s|] && IsBlank(s[..0]) && IsBlank(s[|s|..]);
  }

  /** Cutting a leading whitespace character before trimming the rest trims the whole. */
  lemma TrimsFront(s: string, r: string)
    requires |s| > 0 && IsSpace(s[0]) && Trims(s[1..], r)
    ensures Trims(s, r)
  {
    var t := s[1..];
    var a, b :| 0 <= a <= b <= |t| && r == t[a..b] && IsBlank(t[..a]) && IsBlank(t[b..]);
    assert t[a..b] == s[a + 1..b + 1];
    assert t[b..] == s[b + 1..];
    var u := s[..a + 1];
    forall i | 0 <= i < |u| ensures IsSpace(u[i]) {
      if i > 0 {
        assert u[i] == t[..a][i - 1];
      }
    }
    assert r == s[a + 1..b + 1] && IsBlank(s[..a + 1]) && IsBlank(s[b + 1..]);
  }

  /** Cutting a trailing whitespace character before trimming the rest trims the whole. */
  lemma TrimsBack(s: string, r: string)
    requires |s| > 0 && IsSpace(s[|s| - 1]) && Trims(s[..|s| - 1], r)
    ensures Trims(s, r)
  {
    var t := s[..|s| - 1];
    var a, b :| 0 <= a <= b <= |t| && r == t[a..b] && IsBlank(t[..a]) && IsBlank(t[b..]);
    assert t[a..b] == s[a..b] && t[..a] == s[..a];
    assert s[b..] == t[b..] + [s[|s| - 1]];
    BlankConcat(t[b..], [s[|s| - 1]]);
    assert r == s[a..b] && IsBlank(s[..a]) && IsBlank(s[b..]);
  }

  /** `s.strip()`: drop whitespace at either end until none is left there. The
      result is empty exactly when `s` is blank, and otherwise it starts and ends
      with a character that is not whitespace. */
  function Strip(s: string): (r: string)
    ensures r == [] <==> IsBlank(s)
    ensures r == [] || (!IsSpace(r[0]) && !IsSpace(r[|r| - 1]))
  {
    if |s| > 0 && IsSpace(s[0]) then
      BlankConcat([s[0]], s[1..]);
      assert s == [s[0]] + s[1..];
      Strip(s[1..])
    else if |s| > 0 && IsSpace(s[|s| - 1]) then
      BlankConcat(s[..|s| - 1], [s[|s| - 1]]);
      assert s == s[..|s| - 1] + [s[|s| - 1]];
      Strip(s[..|s| - 1])
    else s
  }

  /** What `Strip` leaves is `s` with a whitespace-only prefix and suffix cut
      off; with `Strip`'s own contract (non-whitespace at both ends of a
      non-empty result) this fixes the result uniquely. */
  lemma {:induction false} StripTrims(s: string)
    ensures Trims(s, Strip(s))
    decreases |s|
  {
    if |s| > 0 && IsSpace(s[0]) {
      StripTrims(s[1..]);
      TrimsFront(s, Strip(s[1..]));
    } else if |s| > 0 && IsSpace(s[|s| - 1]) {
      StripTrims(s[..|s| - 1]);
      TrimsBack(s, Strip(s[..|s| - 1]));
    } else {
      TrimsNothing(s);
    }
  }

  /** A condition that starts and ends with text loses only its line end. */
  lemma StripNewline(e: string)
    requires |e| > 0 && !IsSpace(e[0]) && !IsSpace(e[|e| - 1])
    ensures Strip(e + "\n") == e
  {
    assert (e + "\n")[..|e|] == e;
  }
}
