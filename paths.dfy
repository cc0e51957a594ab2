/**
 * Where `process_one_file` sends a file of the merged tree: a `.ppme` file is
 * preprocessed once per version into `v<version>/` at its path without the
 * suffix; any other file is copied there unchanged. Paths are sequences of
 * components relative to the merged tree (inputs) or to the source tree
 * (outputs).
 */
module Paths {
  import opened Text
  import opened Preprocessor

  const PpmeExt := ".ppme"
  const Versions: seq<nat> := [1, 2, 3]
  const VersionKey := "SDK_VERSION"

  /** A regular file found below the merged tree: its directory and its name. */
  datatype SourceFile = SourceFile(dir: seq<string>, name: string)

  /** What happens for one version: a plain copy, or `preprocess` with an environment. */
  datatype Action = Copy | Run(env: Env)

  datatype Job = Job(version: nat, out: seq<string>, action: Action)

  predicate Annotated(name: string)
  {
    EndsWith(name, PpmeExt)
  }

  /** `f.name[:-len(PPME_EXT)]`: the name without its `.ppme` suffix. */
  function Stem(name: string): (r: string)
    requires Annotated(name)
    ensures r + PpmeExt == name
  {
    name[..|name| - |PpmeExt|]
  }

  /** Removing the suffix undoes adding it. */
  lemma StemOfAnnotated(stem: string)
    ensures Annotated(stem + PpmeExt) && Stem(stem + PpmeExt) == stem
  {
    assert (stem + PpmeExt)[|stem|..] == PpmeExt;
  }

  /** `rel_f`: the path written below every version directory. A `.ppme` file
      keeps its directory and loses the suffix; a file named exactly `.ppme`
      leaves an empty last component, which path normalisation drops, so its
      path is its directory. */
  function RelTarget(f: SourceFile): (r: seq<string>)
    ensures !Annotated(f.name) ==> r == f.dir + [f.name]
    ensures Annotated(f.name) && f.name != PpmeExt ==> r == f.dir + [Stem(f.name)] && r[|r| - 1] + PpmeExt == f.name
    ensures f.name == PpmeExt ==> r == f.dir
    ensures r[..|f.dir|] == f.dir
  {
    if !Annotated(f.name) then f.dir + [f.name]
    else if Stem(f.name) == "" then f.dir
    else f.dir + [Stem(f.name)]
  }

  function Digit(d: nat): (c: char)
    requires d < 10
    ensures '0' <= c <= '9'
  {
    ('0' as int + d) as char
  }

  /** `str(n)`: the decimal numeral of `n`: digits only, one digit exactly for
      `n < 10`, and no leading zero (it starts with `0` only when it is `0`). */
  function Decimal(n: nat): (r: string)
    ensures 1 <= |r|
    ensures forall k :: 0 <= k < |r| ==> '0' <= r[k] <= '9'
    ensures |r| == 1 <==> n < 10
    ensures r[0] == '0' <==> n == 0
    decreases n
  {
    if n < 10 then [Digit(n)] else Decimal(n / 10) + [Digit(n % 10)]
  }

  /** The number a string of decimal digits denotes. */
  function ValueOf(s: string): nat
  {
    if |s| == 0 then 0
    else
      var c := s[|s| - 1];
      ValueOf(s[..|s| - 1]) * 10 + (if '0' <= c <= '9' then c as int - '0' as int else 0)
  }

  /** Reading a numeral gives back its number, so distinct numbers have
      distinct numerals. */
  lemma {:induction false} DecimalRoundTrip(n: nat)
    ensures ValueOf(Decimal(n)) == n
    decreases n
  {
    if n >= 10 {
      DecimalRoundTrip(n / 10);
      var r := Decimal(n);
      assert r[..|r| - 1] == Decimal(n / 10);
    }
  }

  /** `f'v{v}'` */
  function VersionDir(v: nat): string
  {
    "v" + Decimal(v)
  }

  lemma VersionDirInjective(a: nat, b: nat)
    ensures VersionDir(a) == VersionDir(b) <==> a == b
  {
    if VersionDir(a) == VersionDir(b) {
      assert Decimal(a) == VersionDir(a)[1..] && Decimal(b) == VersionDir(b)[1..];
      DecimalRoundTrip(a);
      DecimalRoundTrip(b);
    }
  }

  /** `{'SDK_VERSION': v}` */
  function EnvFor(v: nat): Env
  {
    map[VersionKey := v]
  }

  /** `out_files` together with the action the rest of `process_one_file`
      takes for each entry, in the order of `versions`. */
  function Plan(f: SourceFile, versions: seq<nat>): (jobs: seq<Job>)
    ensures |jobs| == |versions|
  {
    seq(|versions|, k requires 0 <= k < |versions| =>
      Job(versions[k], [VersionDir(versions[k])] + RelTarget(f),
          if Annotated(f.name) then Run(EnvFor(versions[k])) else Copy))
  }

  /** One job per version in order, each writing below its own version
      directory at the same relative path; an annotated file is preprocessed
      with only `SDK_VERSION` bound to the version, any other file copied. */
  lemma PlanShape(f: SourceFile, versions: seq<nat>)
    ensures var jobs := Plan(f, versions);
            forall k :: 0 <= k < |versions| ==>
              jobs[k].version == versions[k] &&
              |jobs[k].out| >= 1 && jobs[k].out[0] == VersionDir(versions[k]) &&
              jobs[k].out[1..] == RelTarget(f) &&
              (jobs[k].action.Copy? <==> !Annotated(f.name)) &&
              (jobs[k].action.Run? ==> jobs[k].action.env == map[VersionKey := versions[k]])
  {
    var jobs := Plan(f, versions);
    forall k | 0 <= k < |versions|
      ensures jobs[k].out[1..] == RelTarget(f)
    {
      assert jobs[k].out == [VersionDir(versions[k])] + RelTarget(f);
    }
  }

  /** Different versions never write to the same path. */
  lemma PlanTargetsDistinct(f: SourceFile, versions: seq<nat>)
    requires forall a, b :: 0 <= a < b < |versions| ==> versions[a] != versions[b]
    ensures var jobs := Plan(f, versions);
            forall a, b :: 0 <= a < b < |jobs| ==> jobs[a].out != jobs[b].out
  {
    var jobs := Plan(f, versions);
    forall a, b | 0 <= a < b < |jobs| ensures jobs[a].out != jobs[b].out {
      VersionDirInjective(versions[a], versions[b]);
      assert jobs[a].out[0] == VersionDir(versions[a]) && jobs[b].out[0] == VersionDir(versions[b]);
    }
  }

  /** The three outputs of a file are three different files. */
  lemma OutputsDistinct(f: SourceFile)
    ensures var jobs := Plan(f, Versions);
            |jobs| == 3 && jobs[0].out != jobs[1].out && jobs[0].out != jobs[2].out && jobs[1].out != jobs[2].out
  {
    PlanTargetsDistinct(f, Versions);
  }

  /** The `~` filter of the walk over the merged tree: backup files are never
      processed, every other file is, in the order of the walk. */
  function SelectFiles(files: seq<SourceFile>): (r: seq<SourceFile>)
    ensures forall f :: f in r <==> f in files && !EndsWith(f.name, "~")
    ensures |r| <= |files|
    ensures (forall k :: 0 <= k < |files| ==> !EndsWith(files[k].name, "~")) ==> r == files
  {
    if |files| == 0 then []
    else
      var rest := SelectFiles(files[1..]);
      assert forall f :: f in files <==> f == files[0] || f in files[1..];
      if EndsWith(files[0].name, "~") then rest else [files[0]] + rest
  }

  /** The filter works file by file: the files kept from a walk are those kept
      from its first part followed by those kept from the rest, so the walk
      order is preserved. */
  lemma {:induction false} SelectFilesAppend(a: seq<SourceFile>, b: seq<SourceFile>)
    ensures SelectFiles(a + b) == SelectFiles(a) + SelectFiles(b)
    decreases |a|
  {
    if |a| > 0 {
      assert (a + b)[0] == a[0] && (a + b)[1..] == a[1..] + b;
      SelectFilesAppend(a[1..], b);
    } else {
      assert a + b == b;
    }
  }
}
