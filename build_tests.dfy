/**
 * The JUnit test generator: test-method names derived from program file names, the
 * method bodies for each test category, the selection of programs to test, the
 * substitution into the class template and the list of classes in the suite.
 */
module BuildTests {
  import opened Wrappers
  import opened Strings

  const RefCompilerPath := "/home/course/cs520/golitec"
  const OtherGroupsDirName := "other_groups"
  const OutTestDirPath := "test"

  const ValidParseClass := "GoLiteValidSyntaxTest"
  const InvalidParseClass := "GoLiteInvalidSyntaxTest"
  const PrettyClass := "GoLitePrettyPrintTest"
  const ValidTypeClass := "GoLiteValidTypingTest"
  const InvalidTypeClass := "GoLiteInvalidTypingTest"
  const GenClass := "GoLiteCodeGenerationTest"

  const ProgsDirPath := "../programs"
  const ValidActualDir := "../programs/valid/actual"
  const ValidGeneralDir := "../programs/valid/general"
  const ValidSyntaxDir := "../programs/valid/syntax"
  const ValidTypeDir := "../programs/valid/type"
  const ValidGenDir := "../programs/valid/gen"
  const InvalidSyntaxDir := "../programs/invalid/syntax"
  const InvalidTypeDir := "../programs/invalid/type"

  const TypeErrorMessage :=
    "'tpe' argument must be 'valid_parse', 'invalid_parse', 'pretty', 'valid_type', or 'invalid_type'."

  function Tabs(n: nat): string { Repeat("\t", n) }

  // ---------------------------------------------------------------- names

  function Capitalize(s: string): (r: string)
    ensures |r| == |s|
    ensures |s| > 0 ==> r[0] == Upper(s[0]) && r[1..] == s[1..]
  {
    if |s| == 0 then s else [Upper(s[0])] + s[1..]
  }

  function Uncapitalize(s: string): (r: string)
    ensures |r| == |s|
    ensures |s| > 0 ==> r[0] == Lower(s[0]) && r[1..] == s[1..]
  {
    if |s| == 0 then s else [Lower(s[0])] + s[1..]
  }

  /** Length of the alphanumeric run at the front of `s`. */
  function RunLength(s: string): (n: nat)
    ensures n <= |s|
    ensures forall i :: 0 <= i < n ==> IsAlnum(s[i])
    ensures n == |s| || !IsAlnum(s[n])
    decreases |s|
  {
    if |s| > 0 && IsAlnum(s[0]) then 1 + RunLength(s[1..]) else 0
  }

  /** The maximal `[0-9a-zA-Z]+` runs of `s`, left to right (Python's `re.findall`). */
  function Runs(s: string): seq<string>
    decreases |s|
  {
    if |s| == 0 then []
    else if !IsAlnum(s[0]) then Runs(s[1..])
    else [s[..RunLength(s)]] + Runs(s[RunLength(s)..])
  }

  function ConcatCapitalized(runs: seq<string>): string
  {
    if |runs| == 0 then "" else Capitalize(runs[0]) + ConcatCapitalized(runs[1..])
  }

  function ToCamelCase(s: string): string
  {
    Uncapitalize(ConcatCapitalized(Runs(s)))
  }

  /** The alphanumeric characters of `s`, in order. */
  function AlnumOnly(s: string): string
  {
    if |s| == 0 then "" else (if IsAlnum(s[0]) then [s[0]] else "") + AlnumOnly(s[1..])
  }

  predicate AllAlnum(s: string) { forall i :: 0 <= i < |s| ==> IsAlnum(s[i]) }

  predicate NoAlnum(s: string) { forall i :: 0 <= i < |s| ==> !IsAlnum(s[i]) }

  function StripGoExtension(fname: string): string
  {
    if |fname| >= 3 then fname[..|fname| - 3] else ""
  }

  function ToTestName(fname: string): (r: string)
  {
    var t := ToCamelCase(StripGoExtension(fname)) + "Test";
    if Contains(t, "2d") then ReplaceAll(t, "2d", "TwoDim")
    else if Contains(t, "3d") then ReplaceAll(t, "3d", "ThreeDim")
    else if IsDigit(t[0]) then "_" + t
    else t
  }

  /** A stem made of alphanumeric runs split by one repeated separator of other
      characters is camel-cased as its runs, each capitalized and then the whole
      uncapitalized. */
  lemma CamelCaseOfJoin(runs: seq<string>, sep: string)
    requires forall i :: 0 <= i < |runs| ==> |runs[i]| > 0 && AllAlnum(runs[i])
    requires |sep| > 0 && NoAlnum(sep)
    ensures ToCamelCase(Join(runs, sep)) == Uncapitalize(ConcatCapitalized(runs))
  {
    RunsOfJoin(runs, sep);
  }

  /** Only the first character of the first run is lowered: the rest of that run
      keeps its case. */
  lemma CamelCaseKeepsFirstRunTail(w: string)
    requires |w| > 0 && AllAlnum(w)
    ensures ToCamelCase(w) == [Lower(w[0])] + w[1..]
  {
    RunsOfWord(w);
    assert ConcatCapitalized([w]) == Capitalize(w) + ConcatCapitalized([]);
  }

  lemma {:induction false} RunLengthAppend(a: string, b: string)
    requires |b| == 0 || !IsAlnum(b[0])
    ensures RunLength(a + b) == RunLength(a)
    decreases |a|
  {
    if |a| == 0 {
      assert a + b == b;
    } else {
      assert (a + b)[0] == a[0];
      if IsAlnum(a[0]) {
        assert (a + b)[1..] == a[1..] + b;
        RunLengthAppend(a[1..], b);
      }
    }
  }

  /** The runs of `a + b` are those of `a` then those of `b` when `b` starts a new run. */
  lemma {:induction false} RunsAppend(a: string, b: string)
    requires |b| == 0 || !IsAlnum(b[0])
    ensures Runs(a + b) == Runs(a) + Runs(b)
    decreases |a|
  {
    if |a| == 0 {
      assert a + b == b;
    } else if !IsAlnum(a[0]) {
      assert (a + b)[1..] == a[1..] + b;
      RunsAppend(a[1..], b);
    } else {
      RunLengthAppend(a, b);
      var n := RunLength(a);
      assert (a + b)[..n] == a[..n];
      assert (a + b)[n..] == a[n..] + b;
      RunsAppend(a[n..], b);
    }
  }

  lemma {:induction false} RunsSkip(a: string, b: string)
    requires NoAlnum(a)
    ensures Runs(a + b) == Runs(b)
    decreases |a|
  {
    if |a| > 0 {
      assert (a + b)[0] == a[0];
      assert (a + b)[1..] == a[1..] + b;
      RunsSkip(a[1..], b);
    } else {
      assert a + b == b;
    }
  }

  lemma RunsOfWord(w: string)
    requires |w| > 0 && AllAlnum(w)
    ensures Runs(w) == [w]
  {
    RunLengthAppend(w, "");
    assert w + "" == w;
    assert RunLength(w) == |w| by {
      RunLengthWhole(w);
    }
    assert w[|w|..] == [];
  }

  lemma {:induction false} RunLengthWhole(w: string)
    requires AllAlnum(w)
    ensures RunLength(w) == |w|
    decreases |w|
  {
    if |w| > 0 {
      RunLengthWhole(w[1..]);
    }
  }

  lemma {:induction false} RunsOfJoin(runs: seq<string>, sep: string)
    requires forall i :: 0 <= i < |runs| ==> |runs[i]| > 0 && AllAlnum(runs[i])
    requires |sep| > 0 && NoAlnum(sep)
    ensures Runs(Join(runs, sep)) == runs
    decreases |runs|
  {
    if |runs| == 1 {
      JoinSingleton(runs[0], sep);
      RunsOfWord(runs[0]);
    } else if |runs| > 1 {
      var init := runs[..|runs| - 1];
      var last := runs[|runs| - 1];
      assert init + [last] == runs;
      JoinSnoc(init, last, sep);
      var j := Join(init, sep);
      assert j + sep + last == j + (sep + last);
      RunsAppend(j, sep + last);
      RunsSkip(sep, last);
      RunsOfWord(last);
      RunsOfJoin(init, sep);
    }
  }

  /** A string laid out as gaps and runs taking turns:
      `gaps[0] + runs[0] + gaps[1] + ... + runs[|runs| - 1] + gaps[|runs|]`. */
  function Weave(gaps: seq<string>, runs: seq<string>): string
    requires |gaps| == |runs| + 1
    decreases |runs|
  {
    if |runs| == 0 then gaps[0] else gaps[0] + runs[0] + Weave(gaps[1..], runs[1..])
  }

  /** The runs are non-empty and alphanumeric, the gaps hold no alphanumeric
      character, and the gaps between two runs are non-empty: every run is then a
      maximal alphanumeric stretch of the woven string. */
  predicate Separates(gaps: seq<string>, runs: seq<string>)
  {
    && |gaps| == |runs| + 1
    && (forall i :: 0 <= i < |runs| ==> |runs[i]| > 0 && AllAlnum(runs[i]))
    && (forall i :: 0 <= i < |gaps| ==> NoAlnum(gaps[i]))
    && (forall i :: 0 < i < |runs| ==> |gaps[i]| > 0)
  }

  /** The stretches of other characters before, between and after the runs of `s`. */
  function Gaps(s: string): (g: seq<string>)
    ensures |g| > 0
    ensures |s| > 0 && !IsAlnum(s[0]) ==> |g[0]| > 0
    decreases |s|
  {
    if |s| == 0 then [""]
    else if !IsAlnum(s[0]) then
      var g := Gaps(s[1..]);
      [[s[0]] + g[0]] + g[1..]
    else [""] + Gaps(s[RunLength(s)..])
  }

  /** Lengthening the first gap by `p` puts `p` in front of the woven string. */
  lemma WeaveCons(p: string, gaps: seq<string>, g: seq<string>, runs: seq<string>)
    requires |gaps| == |runs| + 1 && |g| == |gaps|
    requires g[0] == p + gaps[0] && g[1..] == gaps[1..]
    ensures Weave(g, runs) == p + Weave(gaps, runs)
  {
    if |runs| > 0 {
      Assoc3(p, gaps[0], runs[0], Weave(gaps[1..], runs[1..]));
    }
  }

  /** Every string is its gaps and its runs taking turns, so `Runs` finds exactly the
      maximal alphanumeric stretches, in order. */
  lemma {:induction false} RunsAndGaps(s: string)
    ensures Separates(Gaps(s), Runs(s))
    ensures Weave(Gaps(s), Runs(s)) == s
    decreases |s|
  {
    if |s| > 0 && !IsAlnum(s[0]) {
      RunsAndGaps(s[1..]);
      GapStep(s);
    } else if |s| > 0 {
      RunsAndGaps(s[RunLength(s)..]);
      RunStep(s);
    }
  }

  /** A leading character that is not alphanumeric joins the first gap. */
  lemma GapStep(s: string)
    requires |s| > 0 && !IsAlnum(s[0])
    requires Separates(Gaps(s[1..]), Runs(s[1..]))
    requires Weave(Gaps(s[1..]), Runs(s[1..])) == s[1..]
    ensures Separates(Gaps(s), Runs(s))
    ensures Weave(Gaps(s), Runs(s)) == s
  {
    var t := s[1..];
    assert s == [s[0]] + t;
    var g, r := Gaps(t), Runs(t);
    var gs := [[s[0]] + g[0]] + g[1..];
    assert Gaps(s) == gs && Runs(s) == r;
    WidenFirstGap(s[0], t, g, gs, r);
  }

  lemma WidenFirstGap(c: char, t: string, g: seq<string>, gs: seq<string>, r: seq<string>)
    requires !IsAlnum(c) && Separates(g, r) && Weave(g, r) == t
    requires gs == [[c] + g[0]] + g[1..]
    ensures Separates(gs, r) && Weave(gs, r) == [c] + t
  {
    var h := [c] + g[0];
    assert gs[0] == h && gs[1..] == g[1..];
    WeaveCons([c], g, gs, r);
    assert NoAlnum(h) by {
      assert NoAlnum(g[0]);
      assert forall i :: 0 < i < |h| ==> h[i] == g[0][i - 1];
    }
    SeparatesNewFirst(g, gs, r);
  }

  lemma SeparatesNewFirst(g: seq<string>, gs: seq<string>, r: seq<string>)
    requires Separates(g, r) && |gs| == |g| && gs[1..] == g[1..] && NoAlnum(gs[0])
    ensures Separates(gs, r)
  {
    forall i | 0 < i < |gs|
      ensures gs[i] == g[i]
    {
      assert gs[i] == gs[1..][i - 1];
    }
  }

  /** A leading run takes the first place among the runs, after an empty gap. */
  lemma RunStep(s: string)
    requires |s| > 0 && IsAlnum(s[0])
    requires Separates(Gaps(s[RunLength(s)..]), Runs(s[RunLength(s)..]))
    requires Weave(Gaps(s[RunLength(s)..]), Runs(s[RunLength(s)..])) == s[RunLength(s)..]
    ensures Separates(Gaps(s), Runs(s))
    ensures Weave(Gaps(s), Runs(s)) == s
  {
    var n := RunLength(s);
    var w, t := s[..n], s[n..];
    assert s == w + t;
    var g, r := Gaps(t), Runs(t);
    assert Gaps(s) == [""] + g && Runs(s) == [w] + r;
    assert |r| > 0 ==> |t| > 0 && !IsAlnum(t[0]);
    PrependRun(w, t, g, r);
  }

  lemma PrependRun(w: string, t: string, g: seq<string>, r: seq<string>)
    requires |w| > 0 && AllAlnum(w) && Separates(g, r) && Weave(g, r) == t
    requires |r| > 0 ==> |g[0]| > 0
    ensures Separates([""] + g, [w] + r) && Weave([""] + g, [w] + r) == w + t
  {
    var gs, rs := [""] + g, [w] + r;
    assert gs[0] == "" && gs[1..] == g && rs[0] == w && rs[1..] == r;
    Assoc2("", w, t);
    assert "" + (w + t) == w + t;
    forall i | 0 < i < |gs|
      ensures gs[i] == g[i - 1]
    {
      assert gs[i] == gs[1..][i - 1];
    }
    forall i | 0 < i < |rs|
      ensures rs[i] == r[i - 1]
    {
      assert rs[i] == rs[1..][i - 1];
    }
  }

  /** Conversely, whatever gaps separate the runs, `Runs` gives back those runs. */
  lemma {:induction false} RunsOfWeave(gaps: seq<string>, runs: seq<string>)
    requires Separates(gaps, runs)
    ensures Runs(Weave(gaps, runs)) == runs
    decreases |runs|
  {
    if |runs| == 0 {
      RunsSkip(gaps[0], "");
      assert gaps[0] + "" == gaps[0];
    } else {
      var g, r := gaps[1..], runs[1..];
      assert forall i :: 0 < i < |r| ==> g[i] == gaps[i + 1];
      RunsOfWeave(g, r);
      var w := Weave(g, r);
      if |r| > 0 {
        assert w == g[0] + (r[0] + Weave(g[1..], r[1..]));
        assert w[0] == g[0][0];
      }
      Assoc2(gaps[0], runs[0], w);
      RunsSkip(gaps[0], runs[0] + w);
      RunsAppend(runs[0], w);
      RunsOfWord(runs[0]);
    }
  }

  /** A stem of runs separated by any gaps of other characters, at either end too,
      is camel-cased as its runs. */
  lemma CamelCaseOfWeave(gaps: seq<string>, runs: seq<string>)
    requires Separates(gaps, runs)
    ensures ToCamelCase(Weave(gaps, runs)) == Uncapitalize(ConcatCapitalized(runs))
  {
    RunsOfWeave(gaps, runs);
  }

  lemma {:induction false} AlnumOnlyAppend(a: string, b: string)
    ensures AlnumOnly(a + b) == AlnumOnly(a) + AlnumOnly(b)
    decreases |a|
  {
    if |a| == 0 {
      assert a + b == b;
    } else {
      assert (a + b)[0] == a[0] && (a + b)[1..] == a[1..] + b;
      AlnumOnlyAppend(a[1..], b);
    }
  }

  lemma {:induction false} AlnumOnlyWord(w: string)
    requires AllAlnum(w)
    ensures AlnumOnly(w) == w
    decreases |w|
  {
    if |w| > 0 {
      AlnumOnlyWord(w[1..]);
      assert [w[0]] + w[1..] == w;
    }
  }

  /** The runs put side by side are the alphanumeric characters of `s`: nothing else
      is kept and nothing alphanumeric is dropped. */
  lemma {:induction false} RunsKeepAlnumOnly(s: string)
    ensures Concat(Runs(s)) == AlnumOnly(s)
    decreases |s|
  {
    if |s| > 0 && !IsAlnum(s[0]) {
      RunsKeepAlnumOnly(s[1..]);
    } else if |s| > 0 {
      var n := RunLength(s);
      var w, t := s[..n], s[n..];
      RunsKeepAlnumOnly(t);
      assert w + t == s;
      AlnumOnlyAppend(w, t);
      AlnumOnlyWord(w);
      ConcatCons(w, Runs(t));
    }
  }

  /** After the rewriting, a test name never holds "2d". */
  lemma TestNameHasNo2d(fname: string)
    ensures !Contains(ToTestName(fname), "2d")
  {
    var t := ToCamelCase(StripGoExtension(fname)) + "Test";
    var r := ToTestName(fname);
    assert "2d" == ['2', 'd'] && "3d" == ['3', 'd'];
    if Contains(t, "2d") {
      assert r == ReplaceAll(t, "2d", "TwoDim");
      TwoDimFree("TwoDim");
      PairFreeAfterReplace(t, '2', 'd', "TwoDim", '2', 'd');
    } else if Contains(t, "3d") {
      assert r == ReplaceAll(t, "3d", "ThreeDim");
      ContainsPairIff(t, '2', 'd');
      TwoDimFree("ThreeDim");
      PairFreeAfterReplace(t, '3', 'd', "ThreeDim", '2', 'd');
    } else if IsDigit(t[0]) {
      assert r == "_" + t;
      ContainsPairIff(t, '2', 'd');
      forall i | 0 <= i < |r| - 1 ensures !(r[i] == '2' && r[i + 1] == 'd') {
        if i > 0 { assert r[i] == t[i - 1] && r[i + 1] == t[i]; }
      }
    }
    ContainsPairIff(r, '2', 'd');
  }

  /** Names free of "2d" are also free of "3d" after the rewriting. */
  lemma TestNameHasNo3dWithout2d(fname: string)
    requires !Contains(ToCamelCase(StripGoExtension(fname)) + "Test", "2d")
    ensures !Contains(ToTestName(fname), "3d")
  {
    var t := ToCamelCase(StripGoExtension(fname)) + "Test";
    var r := ToTestName(fname);
    assert "3d" == ['3', 'd'];
    if Contains(t, "3d") {
      assert r == ReplaceAll(t, "3d", "ThreeDim");
      ThreeDimFree("ThreeDim");
      PairFreeAfterReplace(t, '3', 'd', "ThreeDim", '3', 'd');
    } else if IsDigit(t[0]) {
      assert r == "_" + t;
      ContainsPairIff(t, '3', 'd');
      forall i | 0 <= i < |r| - 1 ensures !(r[i] == '3' && r[i + 1] == 'd') {
        if i > 0 { assert r[i] == t[i - 1] && r[i + 1] == t[i]; }
      }
    }
    ContainsPairIff(r, '3', 'd');
  }

  /** Without "2d" or "3d" the name never starts with a digit and keeps its "Test" suffix. */
  lemma TestNameEscapesDigit(fname: string)
    requires !Contains(ToCamelCase(StripGoExtension(fname)) + "Test", "2d")
    requires !Contains(ToCamelCase(StripGoExtension(fname)) + "Test", "3d")
    ensures !IsDigit(ToTestName(fname)[0])
    ensures IsSuffix("Test", ToTestName(fname))
  {
    var t := ToCamelCase(StripGoExtension(fname)) + "Test";
    SuffixOfAppend(ToCamelCase(StripGoExtension(fname)), "Test");
    if IsDigit(t[0]) {
      SuffixOfAppend("_", t);
      assert IsSuffix("Test", "_" + t);
    }
  }

  /** A digit followed by "2d" is not escaped: the "2d" rule wins over the digit rule,
      so the name still starts with a digit. */
  lemma DigitBefore2dNotEscaped(c: char, rest: string)
    requires IsDigit(c) && AllAlnum(rest)
    ensures IsDigit(ToTestName([c] + "2d" + rest + ".go")[0])
  {
    var w := [c] + "2d" + rest;
    assert StripGoExtension(w + ".go") == w;
    assert AllAlnum(w);
    CamelCaseKeepsFirstRunTail(w);
    assert ToCamelCase(w) == w;
    var t := w + "Test";
    assert t[1..3] == "2d";
    ContainsAt(t, "2d", 1);
    assert t[1] == '2' && t[..2][1] == t[1];
    assert t[..2] != "2d";
    assert ReplaceAll(t, "2d", "TwoDim")[0] == c;
  }

  /** Only "2d" is rewritten when a name holds both "2d" and "3d": the "3d" stays. */
  lemma ThreeDimKeptAfter2d(rest: string)
    requires AllAlnum(rest) && DigitFree(rest)
    ensures Contains(ToTestName("2d3d" + rest + ".go"), "3d")
  {
    var tail := "3d" + rest + "Test";
    LeadingTwoDimName("2d3d" + rest, tail);
    ContainsInfix("TwoDim", "3d", rest, "Test");
    assert "TwoDim" + tail == "TwoDim" + "3d" + rest + "Test";
  }

  lemma LeadingTwoDimName(w: string, tail: string)
    requires AllAlnum(w) && |w| > 0 && IsDigit(w[0]) && w + "Test" == "2d" + tail
    requires forall i :: 0 <= i < |tail| ==> tail[i] != '2'
    ensures ToTestName(w + ".go") == "TwoDim" + tail
  {
    assert StripGoExtension(w + ".go") == w;
    CamelCaseKeepsFirstRunTail(w);
    assert ToCamelCase(w) == w;
    ReplaceLeadingOnly("2d", tail, "TwoDim");
  }

  predicate DigitFree(s: string) { forall i :: 0 <= i < |s| ==> !IsDigit(s[i]) }

  lemma TwoDimFree(rep: string)
    requires DigitFree(rep)
    ensures !HasPair(rep, '2', 'd')
  {
  }

  lemma ThreeDimFree(rep: string)
    requires DigitFree(rep)
    ensures !HasPair(rep, '3', 'd')
  {
  }

  // ---------------------------------------------------------------- paths

  /** Index of the last `c` in `s`, or -1 (Python's `rfind`). */
  function LastIndexOf(s: string, c: char): (k: int)
    ensures -1 <= k < |s|
    ensures k >= 0 ==> s[k] == c
    ensures forall j :: k < j < |s| ==> s[j] != c
    decreases |s|
  {
    if |s| == 0 then -1
    else if s[|s| - 1] == c then |s| - 1
    else LastIndexOf(s[..|s| - 1], c)
  }

  function RStripSlashes(s: string): string
    decreases |s|
  {
    if |s| > 0 && s[|s| - 1] == '/' then RStripSlashes(s[..|s| - 1]) else s
  }

  predicate AllSlashes(s: string) { forall i :: 0 <= i < |s| ==> s[i] == '/' }

  /** The directory part of `p` (`os.path.split(p)[0]`, equal to `os.path.dirname(p)`). */
  function DirName(p: string): string
  {
    var head := p[..LastIndexOf(p, '/') + 1];
    if |head| > 0 && !AllSlashes(head) then RStripSlashes(head) else head
  }

  /** The final component of `p` (`os.path.basename`). */
  function BaseName(p: string): string
  {
    p[LastIndexOf(p, '/') + 1..]
  }

  /** `os.path.join(parent, name)`. */
  function JoinPath(parent: string, name: string): string
  {
    if |name| > 0 && name[0] == '/' then name
    else if |parent| == 0 || parent[|parent| - 1] == '/' then parent + name
    else parent + "/" + name
  }

  /** `os.path.splitext(p)[0]`: the path without its last extension; leading dots of
      the final component do not start an extension. */
  function SplitExtRoot(p: string): string
  {
    var sep := LastIndexOf(p, '/');
    var dot := LastIndexOf(p, '.');
    if dot > sep && exists i :: sep + 1 <= i < dot && p[i] != '.' then p[..dot] else p
  }

  predicate IsOtherGroupsTest(path: string)
  {
    Contains(DirName(path), OtherGroupsDirName)
  }

  function TestMethodName(fname: string, path: string): string
  {
    var name := ToTestName(fname);
    if IsOtherGroupsTest(path) then "Group" + BaseName(DirName(path)) + Capitalize(name)
    else name
  }

  /** Joining a parent without a trailing slash and a plain file name is undone by
      splitting: the directory part is the parent and the final component the name. */
  lemma SplitJoinPath(parent: string, name: string)
    requires |parent| > 0 && parent[|parent| - 1] != '/'
    requires forall i :: 0 <= i < |name| ==> name[i] != '/'
    ensures DirName(JoinPath(parent, name)) == parent
    ensures BaseName(JoinPath(parent, name)) == name
  {
    var p := parent + "/" + name;
    assert JoinPath(parent, name) == p;
    LastIndexOfBefore(parent, '/', name);
    var head := p[..|parent| + 1];
    assert head == parent + "/";
    assert head[|parent| - 1] != '/';
    assert head[..|head| - 1] == parent;
    assert RStripSlashes(parent) == parent;
    assert RStripSlashes(head) == parent;
    assert DirName(p) == parent;
    assert p[|parent| + 1..] == name;
  }

  /** The last `c` of `a + [c] + b` is the one after `a` when `b` has none. */
  lemma {:induction false} LastIndexOfBefore(a: string, c: char, b: string)
    requires forall i :: 0 <= i < |b| ==> b[i] != c
    ensures LastIndexOf(a + [c] + b, c) == |a|
    decreases |b|
  {
    var s := a + [c] + b;
    if |b| > 0 {
      assert s[..|s| - 1] == a + [c] + b[..|b| - 1];
      LastIndexOfBefore(a, c, b[..|b| - 1]);
    }
  }

  /** A program found directly under a parent directory is another group's test iff
      the parent path mentions "other_groups"; its method name then carries the
      parent directory's own name after "Group". */
  lemma OtherGroupsMethodName(parent: string, fname: string)
    requires |parent| > 0 && parent[|parent| - 1] != '/'
    requires forall i :: 0 <= i < |fname| ==> fname[i] != '/'
    ensures IsOtherGroupsTest(JoinPath(parent, fname)) <==> Contains(parent, OtherGroupsDirName)
    ensures TestMethodName(fname, JoinPath(parent, fname))
         == if Contains(parent, OtherGroupsDirName)
            then "Group" + BaseName(parent) + Capitalize(ToTestName(fname))
            else ToTestName(fname)
  {
    SplitJoinPath(parent, fname);
  }

  // ---------------------------------------------------------------- bodies

  function AssertTrueBody(check: string, path: string, tabs: nat): string
  {
    Tabs(tabs) + "assertTrue(" + check + "(\"" + path + "\"));"
  }

  function AssertThrown(check: string, path: string, kind: string): string
  {
    "assertThatThrownBy(() -> { " + check + "(\"" + path + "\"); }).isInstanceOf(" + kind + ".class);"
  }

  /** A body that passes if `check(path)` throws any one of `kinds`: each kind but the
      last is tried inside a `try` whose `catch` falls back to the remaining kinds. */
  function AssertExceptionBody(check: string, kinds: seq<string>, path: string, tabs: nat): string
    requires |kinds| >= 1
    decreases |kinds|
  {
    if |kinds| == 1 then Tabs(tabs) + AssertThrown(check, path, kinds[0])
    else
      Tabs(tabs) + "try {\n"
      + Tabs(tabs + 1) + AssertThrown(check, path, kinds[0]) + "\n"
      + Tabs(tabs) + "} catch (AssertionError e" + NatToString(|kinds| - 1) + ") {\n"
      + AssertExceptionBody(check, kinds[1..], path, tabs + 1) + "\n"
      + Tabs(tabs) + "}"
  }

  /** The shape of an exception body: one assertion per kind, each but the last guarded
      by a catch that falls back to the rest. */
  datatype Guard =
    | Expect(kind: string)
    | Fallback(kind: string, catchIndex: nat, rest: Guard)

  function GuardOf(kinds: seq<string>): Guard
    requires |kinds| >= 1
    decreases |kinds|
  {
    if |kinds| == 1 then Expect(kinds[0])
    else Fallback(kinds[0], |kinds| - 1, GuardOf(kinds[1..]))
  }

  function Depth(g: Guard): nat
  {
    match g
    case Expect(_) => 0
    case Fallback(_, _, rest) => 1 + Depth(rest)
  }

  function Kinds(g: Guard): seq<string>
  {
    match g
    case Expect(k) => [k]
    case Fallback(k, _, rest) => [k] + Kinds(rest)
  }

  /** The catch labels from the outermost level inwards. */
  function Labels(g: Guard): seq<nat>
  {
    match g
    case Expect(_) => []
    case Fallback(_, l, rest) => [l] + Labels(rest)
  }

  function Render(g: Guard, check: string, path: string, tabs: nat): string
  {
    match g
    case Expect(k) => Tabs(tabs) + AssertThrown(check, path, k)
    case Fallback(k, l, rest) =>
      Tabs(tabs) + "try {\n"
      + Tabs(tabs + 1) + AssertThrown(check, path, k) + "\n"
      + Tabs(tabs) + "} catch (AssertionError e" + NatToString(l) + ") {\n"
      + Render(rest, check, path, tabs + 1) + "\n"
      + Tabs(tabs) + "}"
  }

  /** The exception body for `n` kinds is a guard tree of depth n-1 that asserts the
      kinds in the given order, whose catch at the level with k kinds left is `e(k-1)`,
      and whose rendering is exactly the text the generator builds. */
  lemma {:induction false} ExceptionBodyShape(check: string, kinds: seq<string>, path: string, tabs: nat)
    requires |kinds| >= 1
    ensures Render(GuardOf(kinds), check, path, tabs) == AssertExceptionBody(check, kinds, path, tabs)
    ensures Depth(GuardOf(kinds)) == |kinds| - 1
    ensures Kinds(GuardOf(kinds)) == kinds
    ensures |Labels(GuardOf(kinds))| == |kinds| - 1
    ensures forall i :: 0 <= i < |kinds| - 1 ==> Labels(GuardOf(kinds))[i] == |kinds| - 1 - i
    decreases |kinds|
  {
    if |kinds| > 1 {
      ExceptionBodyShape(check, kinds[1..], path, tabs + 1);
      assert [kinds[0]] + kinds[1..] == kinds;
      var ls := Labels(GuardOf(kinds));
      assert ls == [|kinds| - 1] + Labels(GuardOf(kinds[1..]));
      forall i | 0 <= i < |kinds| - 1
        ensures ls[i] == |kinds| - 1 - i
      {
        if i > 0 {
          assert ls[i] == Labels(GuardOf(kinds[1..]))[i - 1];
        }
      }
    }
  }

  /** One kind gives the unguarded assertion. */
  lemma SingleKindIsUnguarded(check: string, kind: string, path: string, tabs: nat)
    ensures AssertExceptionBody(check, [kind], path, tabs)
         == Tabs(tabs) + "assertThatThrownBy(() -> { " + check + "(\"" + path + "\"); }).isInstanceOf(" + kind + ".class);"
  {
  }

  function GenProgPath(): string { JoinPath(OutTestDirPath, ".tmp.golite.py") }

  function GenFinallyBlock(tabs: nat): string
  {
    Tabs(tabs) + "} finally {\n"
    + Tabs(tabs + 1) + "if (r != null) r.close();\n"
    + Tabs(tabs + 1) + "genProgF.delete();\n"
    + Tabs(tabs) + "}"
  }

  function GenDecls(tabs: nat): string
  {
    Tabs(tabs) + "File genProgF = new File(\"" + GenProgPath() + "\");\n"
    + Tabs(tabs) + "BufferedReader r = null;\n"
  }

  /** Compile the program, run the generated Python and collect its output. */
  function GenRunLines(path: string, tabs: nat): string
  {
    var gen := GenProgPath();
    var inner := Tabs(tabs + 1);
    inner + "generateCode(\"" + path + "\", \"" + gen + "\");\n\n"
    + inner + "ProcessBuilder pb = new ProcessBuilder(\"python\", \"" + gen + "\");\n"
    + inner + "Process p = pb.start();\n"
    + inner + "p.waitFor();\n\n"
    + inner + "String gen = \"\";\n\n"
    + inner + "r = new BufferedReader(new InputStreamReader(p.getInputStream()));\n"
    + inner + "String s;\n"
    + inner + "while ((s = r.readLine()) != null) gen += s + \"\\n\";\n"
    + inner + "r.close();\n\n"
    + inner + "r = new BufferedReader(new InputStreamReader(p.getErrorStream()));\n"
    + inner + "while ((s = r.readLine()) != null) gen += s + \"\\n\";\n"
    + inner + "r.close();\n\n"
  }

  /** The declaration of the file holding the expected output. */
  function ExpectedOutDecl(path: string): string
  {
    "File exOutF = new File(\"" + SplitExtRoot(path) + ".out\");"
  }

  /** Read the expected output and compare it with the program's output. */
  function GenCompareLines(tabs: nat): string
  {
    var inner := Tabs(tabs + 1);
    "\n\n"
    + inner + "r = new BufferedReader(new FileReader(exOutF));\n"
    + inner + "String ex = \"\";\n"
    + inner + "while ((s = r.readLine()) != null) ex += s + \"\\n\";\n\n"
    + inner + "assertEquals(ex, gen);\n"
  }

  function GenTryHead(path: string, tabs: nat): string
  {
    Tabs(tabs) + "try {\n" + GenRunLines(path, tabs) + Tabs(tabs + 1)
  }

  /** The code-generation test body: declare the temporary file and the reader, run
      the generated Python and compare with the expected output under `try`, and close
      the reader and delete the temporary file under `finally`. */
  function GenMethodBody(path: string, tabs: nat): string
  {
    GenDecls(tabs) + GenTryHead(path, tabs) + ExpectedOutDecl(path) + GenCompareLines(tabs) + GenFinallyBlock(tabs)
  }

  /** The code-generation body ends with the `finally` block that closes the reader
      and deletes the temporary file, and it reads the expected output from the
      program's path with its extension replaced by ".out". */
  lemma GenMethodBodyShape(path: string, tabs: nat)
    ensures IsSuffix(GenFinallyBlock(tabs), GenMethodBody(path, tabs))
    ensures Contains(GenMethodBody(path, tabs), ExpectedOutDecl(path))
  {
    SuffixOfAppend(GenDecls(tabs) + GenTryHead(path, tabs) + ExpectedOutDecl(path) + GenCompareLines(tabs),
                   GenFinallyBlock(tabs));
    ContainsInfix(GenDecls(tabs) + GenTryHead(path, tabs), ExpectedOutDecl(path), GenCompareLines(tabs),
                  GenFinallyBlock(tabs));
  }

  /** For a program `stem.go` the generated test reads the expected output from `stem.out`. */
  lemma GenReadsSiblingOutFile(stem: string)
    requires |stem| > 0 && stem[|stem| - 1] != '/' && stem[|stem| - 1] != '.'
    ensures SplitExtRoot(stem + ".go") == stem
  {
    var p := stem + ".go";
    assert p[|stem|] == '.' && p[|stem| + 1] == 'g' && p[|stem| + 2] == 'o';
    assert LastIndexOf(p, '.') == |stem|;
    var sep := LastIndexOf(p, '/');
    assert sep < |stem| - 1 by {
      assert p[|stem| - 1] != '/';
    }
    assert p[|stem| - 1] != '.';
    assert p[..|stem|] == stem;
  }

  function RefMethodBody(option: string, path: string, equals: bool, tabs: nat): string
  {
    Tabs(tabs) + (if equals then "assertEquals" else "assertNotEquals")
    + "(\"OK\", runReferenceCompiler(\"" + RefCompilerPath + "\", \"" + path + "\", \"" + option + "\"));"
  }

  const InvalidParseKinds := ["LexerException", "ParserException", "WeederException"]
  const InvalidTypeKinds := ["SymbolTableException", "TypeCheckException"]

  /** The six test categories; any other `tpe` string is rejected. */
  datatype Category = ValidParse | InvalidParse | Pretty | ValidType | InvalidType | Gen

  function CategoryOf(tpe: string): (c: Option<Category>)
    ensures c.Some? <==> tpe in {"valid_parse", "invalid_parse", "pretty", "valid_type", "invalid_type", "gen"}
  {
    if tpe == "valid_parse" then Some(ValidParse)
    else if tpe == "invalid_parse" then Some(InvalidParse)
    else if tpe == "pretty" then Some(Pretty)
    else if tpe == "valid_type" then Some(ValidType)
    else if tpe == "invalid_type" then Some(InvalidType)
    else if tpe == "gen" then Some(Gen)
    else None
  }

  function MethodBody(c: Category, ref: bool, path: string): string
  {
    match c
    case ValidParse =>
      if ref then RefMethodBody("parse", path, true, 2) else AssertTrueBody("parse", path, 2)
    case InvalidParse =>
      if ref then RefMethodBody("parse", path, false, 2)
      else AssertExceptionBody("parse", InvalidParseKinds, path, 2)
    case Pretty => AssertTrueBody("checkPrettyInvariant", path, 2)
    case ValidType =>
      if ref then RefMethodBody("typecheck", path, true, 2) else AssertTrueBody("typeCheck", path, 2)
    case InvalidType =>
      if ref then RefMethodBody("typecheck", path, false, 2)
      else AssertExceptionBody("typeCheck", InvalidTypeKinds, path, 2)
    case Gen => GenMethodBody(path, 2)
  }

  /** Outside reference mode an invalid program must throw one of the exception kinds
      of its phase: lexing, parsing or weeding, through a guard of depth 2. */
  lemma InvalidParseBodyGuard(path: string)
    ensures MethodBody(InvalidParse, false, path) == Render(GuardOf(InvalidParseKinds), "parse", path, 2)
    ensures Kinds(GuardOf(InvalidParseKinds)) == InvalidParseKinds && Depth(GuardOf(InvalidParseKinds)) == 2
  {
    ExceptionBodyShape("parse", InvalidParseKinds, path, 2);
  }

  /** Outside reference mode an ill-typed program must throw a symbol-table or a type
      error, through a guard of depth 1. */
  lemma InvalidTypeBodyGuard(path: string)
    ensures MethodBody(InvalidType, false, path) == Render(GuardOf(InvalidTypeKinds), "typeCheck", path, 2)
    ensures Kinds(GuardOf(InvalidTypeKinds)) == InvalidTypeKinds && Depth(GuardOf(InvalidTypeKinds)) == 1
  {
    ExceptionBodyShape("typeCheck", InvalidTypeKinds, path, 2);
  }

  /** The exceptions named in a test method's `throws` clause: InterruptedException
      only in reference mode or for code generation. */
  function ThrownKinds(c: Category, ref: bool): (r: seq<string>)
    ensures "IOException" in r && "LexerException" in r && "ParserException" in r
    ensures "InterruptedException" in r <==> ref || c == Gen
  {
    if ref || c == Gen then ["IOException", "InterruptedException", "LexerException", "ParserException"]
    else ["IOException", "LexerException", "ParserException"]
  }

  function ThrowsClause(c: Category, ref: bool): string
  {
    "throws " + Join(ThrownKinds(c, ref), ", ") + " {\n"
  }

  function TestMethodStr(fname: string, path: string, tpe: string, ref: bool): (r: Result<string, string>)
    ensures r.Err? <==> CategoryOf(tpe).None?
    ensures r.Err? ==> r.error == TypeErrorMessage
  {
    match CategoryOf(tpe)
    case None => Err(TypeErrorMessage)
    case Some(c) =>
      Ok("\t@Test\n" + "\tpublic void " + TestMethodName(fname, path) + "() "
         + ThrowsClause(c, ref) + MethodBody(c, ref, path) + "\n" + "\t}")
  }

  // ---------------------------------------------------------------- selection

  /** The ignore set: the stripped lines of the ignore file that are not blank and do
      not start with '#'; empty when there is no ignore file. Text-mode reading ends a
      line at '\n', '\r' or both; splitting at each of them gives the same set, since the
      empty piece between '\r' and '\n' is blank. */
  function IgnoreSet(file: Option<string>): set<string>
  {
    match file
    case None => {}
    case Some(content) =>
      set m, l | m in Split(content, '\n') && l in Split(m, '\r') && Strip(l) != ""
        && !(|l| > 0 && l[0] == '#') :: Strip(l)
  }

  /** A walked file becomes a test iff its name ends in ".go" and its joined path is not ignored. */
  predicate Selected(entry: (string, string), ignore: set<string>)
  {
    IsSuffix(".go", entry.1) && JoinPath(entry.0, entry.1) !in ignore
  }

  function SelectedEntries(walk: seq<(string, string)>, ignore: set<string>): (r: seq<(string, string)>)
    ensures forall e :: e in r ==> e in walk && Selected(e, ignore)
    ensures forall e :: e in walk && Selected(e, ignore) ==> e in r
  {
    if |walk| == 0 then []
    else SelectedEntries(walk[..|walk| - 1], ignore)
         + (if Selected(walk[|walk| - 1], ignore) then [walk[|walk| - 1]] else [])
  }

  lemma SelectedEntriesSnoc(walk: seq<(string, string)>, ignore: set<string>)
    requires |walk| > 0
    ensures SelectedEntries(walk, ignore) == SelectedEntries(walk[..|walk| - 1], ignore)
      + (if Selected(walk[|walk| - 1], ignore) then [walk[|walk| - 1]] else [])
  {
  }

  /** The test method for one walked entry, named from the file and run on the joined path. */
  function EntryMethod(e: (string, string), tpe: string, ref: bool): Result<string, string>
  {
    TestMethodStr(e.1, JoinPath(e.0, e.1), tpe, ref)
  }

  /** `methods` are the test methods of `entries`, one for one. */
  predicate MethodsFor(methods: seq<string>, entries: seq<(string, string)>, tpe: string, ref: bool)
  {
    |methods| == |entries|
    && forall j :: 0 <= j < |methods| ==> Ok(methods[j]) == EntryMethod(entries[j], tpe, ref)
  }

  lemma MethodsForSnoc(methods: seq<string>, entries: seq<(string, string)>, m: string, e: (string, string),
                       tpe: string, ref: bool)
    requires MethodsFor(methods, entries, tpe, ref) && Ok(m) == EntryMethod(e, tpe, ref)
    ensures MethodsFor(methods + [m], entries + [e], tpe, ref)
  {
  }

  /** The test methods of one class (the loop of `create_test`): one per selected file
      in walk order; the category error is raised by the first selected file. `walk`
      lists the (parent, file name) pairs that the walks of the class's program
      directories yield, one directory after the other. */
  method CreateTestMethods(walk: seq<(string, string)>, tpe: string, ref: bool, ignore: set<string>)
    returns (r: Result<seq<string>, string>)
    ensures r.Err? <==> |SelectedEntries(walk, ignore)| > 0 && CategoryOf(tpe).None?
    ensures r.Err? ==> r.error == TypeErrorMessage
    ensures r.Ok? ==> |r.value| == |SelectedEntries(walk, ignore)|
    ensures r.Ok? ==> forall i :: 0 <= i < |r.value| ==>
      Ok(r.value[i]) == EntryMethod(SelectedEntries(walk, ignore)[i], tpe, ref)
  {
    var methods: seq<string> := [];
    var i := 0;
    while i < |walk|
      invariant 0 <= i <= |walk|
      invariant MethodsFor(methods, SelectedEntries(walk[..i], ignore), tpe, ref)
      invariant |methods| > 0 ==> CategoryOf(tpe).Some?
    {
      SelectedEntriesSnoc(walk[..i + 1], ignore);
      assert walk[..i + 1][..i] == walk[..i];
      if Selected(walk[i], ignore) {
        var m := EntryMethod(walk[i], tpe, ref);
        if m.Err? {
          assert walk[i] in SelectedEntries(walk, ignore);
          return Err(m.error);
        }
        MethodsForSnoc(methods, SelectedEntries(walk[..i], ignore), m.value, walk[i], tpe, ref);
        methods := methods + [m.value];
      }
      i := i + 1;
    }
    assert walk[..i] == walk;
    return Ok(methods);
  }

  /** `create_test` without its file input and output: the methods of the selected
      programs and the class source they fill into the class template. */
  method CreateTest(testName: string, walk: seq<(string, string)>, tpe: string, ref: bool,
                    ignoreFile: Option<string>, template: string)
    returns (r: Result<string, string>, methods: seq<string>)
    ensures r.Err? <==> |SelectedEntries(walk, IgnoreSet(ignoreFile))| > 0 && CategoryOf(tpe).None?
    ensures r.Err? ==> r.error == TypeErrorMessage
    ensures r.Ok? ==> |methods| == |SelectedEntries(walk, IgnoreSet(ignoreFile))|
    ensures r.Ok? ==> forall i :: 0 <= i < |methods| ==>
      Ok(methods[i]) == EntryMethod(SelectedEntries(walk, IgnoreSet(ignoreFile))[i], tpe, ref)
    ensures r.Ok? ==> r.value == ClassSource(template, testName, methods)
  {
    var ms := CreateTestMethods(walk, tpe, ref, IgnoreSet(ignoreFile));
    if ms.Err? {
      return Err(ms.error), [];
    }
    methods := ms.value;
    r := Ok(ClassSource(template, testName, methods));
  }

  function ToTemplateMarker(s: string): string { "<<<" + s + ">>>" }

  const NameMarker := ToTemplateMarker("INSERT NAME HERE")
  const TestsMarker := ToTemplateMarker("INSERT TESTS HERE")

  function ClassSource(template: string, className: string, methods: seq<string>): string
  {
    ReplaceAll(ReplaceAll(template, NameMarker, className), TestsMarker, Join(methods, "\n\n"))
  }

  predicate NoMarkerStart(s: string) { forall i :: 0 <= i < |s| ==> s[i] != '<' }

  /** In a template made of marker-free text around one name marker and then one tests
      marker, the class name replaces the first and the methods, separated by a blank
      line, replace the second. */
  lemma ClassSourceFillsMarkers(pre: string, mid: string, post: string, className: string, methods: seq<string>)
    requires NoMarkerStart(pre) && NoMarkerStart(mid) && NoMarkerStart(post) && NoMarkerStart(className)
    ensures ClassSource(pre + NameMarker + mid + TestsMarker + post, className, methods)
         == pre + className + mid + Join(methods, "\n\n") + post
  {
    var x := "INSERT NAME HERE>>>";
    var y := "INSERT TESTS HERE>>>";
    assert NameMarker == "<<<" + x;
    assert TestsMarker == "<<<" + y;
    assert x[7] == 'N' && y[7] == 'T';
    FillTwoMarkers(pre, mid, post, className, Join(methods, "\n\n"), x, y, 7);
  }

  /** The substitution argument for any two markers "<<<x" and "<<<y" that differ. */
  lemma FillTwoMarkers(pre: string, mid: string, post: string, name: string, tests: string,
                       x: string, y: string, k: nat)
    requires NoMarkerStart(pre) && NoMarkerStart(mid) && NoMarkerStart(post) && NoMarkerStart(name)
    requires NoMarkerStart(x) && NoMarkerStart(y) && k < |x| && k < |y| && x[k] != y[k]
    ensures ReplaceAll(ReplaceAll(pre + ("<<<" + x) + mid + ("<<<" + y) + post, "<<<" + x, name), "<<<" + y, tests)
         == pre + name + mid + tests + post
  {
    var nm := "<<<" + x;
    var tm := "<<<" + y;
    assert pre + nm + mid + tm + post == pre + nm + (mid + (tm + post));
    ReplaceAllAfterPlain(pre, nm, name, mid + (tm + post));
    ReplaceAllSkipPlain(mid, tm + post, nm, name);
    MarkerAbsentAfterOther(x, y, post, name, k);
    assert tm + post == "<<<" + y + post;
    var named := pre + name + mid + tm + post;
    assert ReplaceAll(pre + nm + mid + tm + post, nm, name) == named;
    ReplaceAllAfterPlain(pre + name + mid, tm, tests, post);
    NotContainsWithoutHead(post, tm);
    ReplaceAllAbsent(post, tm, tests);
  }

  /** The marker "<<<x" does not occur in marker-free text after a different marker "<<<y". */
  lemma MarkerAbsentAfterOther(x: string, y: string, post: string, c: string, k: nat)
    requires NoMarkerStart(x) && NoMarkerStart(y) && NoMarkerStart(post)
    requires k < |x| && k < |y| && x[k] != y[k]
    ensures ReplaceAll("<<<" + y + post, "<<<" + x, c) == "<<<" + y + post
  {
    var nm := "<<<" + x;
    var s3 := y + post;
    NoMarkerStartConcat(y, post);
    NotContainsWithoutHead(s3, nm);
    ReplaceAllAbsent(s3, nm, c);
    assert nm[1] == '<' && nm[2] == '<' && nm[3] == x[0];
    ReplaceAllConsFixed('<', s3, nm, c, 1);
    var s2 := ['<'] + s3;
    ReplaceAllConsFixed('<', s2, nm, c, 2);
    var s1 := ['<'] + s2;
    assert s1[k + 2] == y[k] && nm[k + 3] == x[k];
    ReplaceAllConsFixed('<', s1, nm, c, k + 3);
    assert ['<'] + s1 == "<<<" + y + post;
  }

  lemma NoMarkerStartConcat(a: string, b: string)
    requires NoMarkerStart(a) && NoMarkerStart(b)
    ensures NoMarkerStart(a + b)
  {
    forall i | 0 <= i < |a + b| ensures (a + b)[i] != '<' {
      if i >= |a| { assert (a + b)[i] == b[i - |a|]; }
    }
  }

  // ---------------------------------------------------------------- suite

  /** The test classes `main` builds, in order: the pretty-printing and code-generation
      classes only outside reference mode. */
  function BuiltClasses(ref: bool): seq<string>
  {
    [ValidParseClass, InvalidParseClass]
    + (if ref then [] else [PrettyClass])
    + [ValidTypeClass, InvalidTypeClass]
    + (if ref then [] else [GenClass])
  }

  function SuiteClassList(ref: bool): string
  {
    SuiteListOf(ValidParseClass, InvalidParseClass, PrettyClass, ValidTypeClass, InvalidTypeClass, GenClass, ref)
  }

  /** The class list the suite template receives, formatted as `main` formats it. */
  function SuiteListOf(vp: string, ip: string, pp: string, vt: string, it: string, g: string, ref: bool): string
  {
    var sep := ",\n\t";
    if ref then
      ClassLit(vp) + sep + ClassLit(ip) + sep + ClassLit(vt) + sep + ClassLit(it)
    else
      ClassLit(vp) + sep + ClassLit(ip) + sep + ClassLit(pp) + sep
      + ClassLit(vt) + sep + ClassLit(it) + sep + ClassLit(g)
  }

  /** The classes `main` builds, each with the program directories it walks, its
      category and whether it targets the reference compiler. */
  datatype PlannedClass = PlannedClass(name: string, dirs: seq<string>, tpe: string, ref: bool)

  function Plan(ref: bool): seq<PlannedClass>
  {
    var validSyntax := [ValidActualDir, ValidGeneralDir, ValidSyntaxDir];
    var validType := [ValidActualDir, ValidGeneralDir, ValidTypeDir];
    [PlannedClass(ValidParseClass, validSyntax, "valid_parse", ref),
     PlannedClass(InvalidParseClass, [InvalidSyntaxDir], "invalid_parse", ref)]
    + (if ref then [] else [PlannedClass(PrettyClass, validSyntax, "pretty", false)])
    + [PlannedClass(ValidTypeClass, validType, "valid_type", ref),
       PlannedClass(InvalidTypeClass, [InvalidTypeDir], "invalid_type", ref)]
    + (if ref then [] else [PlannedClass(GenClass, [ValidActualDir, ValidGenDir], "gen", false)])
  }

  /** Every class `main` builds has a known category, so building never raises the
      category error; the classes are exactly those the suite lists, in order, and
      each targets the reference compiler exactly in reference mode. */
  lemma PlanIsConsistent(ref: bool)
    ensures |Plan(ref)| == |BuiltClasses(ref)|
    ensures forall i :: 0 <= i < |Plan(ref)| ==>
      Plan(ref)[i].name == BuiltClasses(ref)[i] && CategoryOf(Plan(ref)[i].tpe).Some?
      && Plan(ref)[i].ref == ref
  {
  }

  /** A Java class literal. */
  function ClassLit(name: string): string { name + ".class" }

  function ClassLiterals(names: seq<string>): (r: seq<string>)
    ensures |r| == |names|
    ensures forall i :: 0 <= i < |names| ==> r[i] == ClassLit(names[i])
  {
    if |names| == 0 then [] else [ClassLit(names[0])] + ClassLiterals(names[1..])
  }

  /** The suite lists the built classes as class literals separated by ",\n\t". */
  lemma SuiteListsBuiltClasses(ref: bool)
    ensures SuiteClassList(ref) == Join(ClassLiterals(BuiltClasses(ref)), ",\n\t")
  {
    SuiteListOfIsJoin(ValidParseClass, InvalidParseClass, PrettyClass, ValidTypeClass, InvalidTypeClass, GenClass,
                      ref);
  }

  lemma SuiteListOfIsJoin(vp: string, ip: string, pp: string, vt: string, it: string, g: string, ref: bool)
    ensures SuiteListOf(vp, ip, pp, vt, it, g, ref)
         == Join(ClassLiterals([vp, ip] + (if ref then [] else [pp]) + [vt, it] + (if ref then [] else [g])), ",\n\t")
  {
    var sep := ",\n\t";
    var a, b, c, d := ClassLit(vp), ClassLit(ip), ClassLit(vt), ClassLit(it);
    var names := [vp, ip] + (if ref then [] else [pp]) + [vt, it] + (if ref then [] else [g]);
    var lits := ClassLiterals(names);
    if ref {
      assert names == [vp, ip, vt, it];
      assert lits[0] == a && lits[1] == b && lits[2] == c && lits[3] == d;
      assert lits == [a, b, c, d];
      JoinFour(a, b, c, d, sep);
    } else {
      var e, f := ClassLit(pp), ClassLit(g);
      assert names == [vp, ip, pp, vt, it, g];
      assert lits[0] == a && lits[1] == b && lits[2] == e && lits[3] == c && lits[4] == d && lits[5] == f;
      assert lits == [a, b, e, c, d, f];
      JoinSix(a, b, e, c, d, f, sep);
    }
  }

  lemma JoinFour(a: string, b: string, c: string, d: string, sep: string)
    ensures Join([a, b, c, d], sep) == a + sep + b + sep + c + sep + d
  {
    JoinSingleton(a, sep);
    JoinSnoc([a], b, sep);
    assert [a] + [b] == [a, b];
    JoinSnoc([a, b], c, sep);
    assert [a, b] + [c] == [a, b, c];
    JoinSnoc([a, b, c], d, sep);
    assert [a, b, c] + [d] == [a, b, c, d];
  }

  lemma JoinSix(a: string, b: string, c: string, d: string, e: string, f: string, sep: string)
    ensures Join([a, b, c, d, e, f], sep) == a + sep + b + sep + c + sep + d + sep + e + sep + f
  {
    JoinFour(a, b, c, d, sep);
    JoinSnoc([a, b, c, d], e, sep);
    assert [a, b, c, d] + [e] == [a, b, c, d, e];
    JoinSnoc([a, b, c, d, e], f, sep);
    assert [a, b, c, d, e] + [f] == [a, b, c, d, e, f];
  }

  const SuiteMarker := ToTemplateMarker("INSERT TEST CLASSES HERE")

  function SuiteSource(template: string, ref: bool): string
  {
    ReplaceAll(template, SuiteMarker, SuiteClassList(ref))
  }

  /** In a suite template with one marker among marker-free text, the marker is
      replaced by the class list. */
  lemma SuiteSourceFillsMarker(pre: string, post: string, ref: bool)
    requires NoMarkerStart(pre) && NoMarkerStart(post)
    ensures SuiteSource(pre + SuiteMarker + post, ref) == pre + SuiteClassList(ref) + post
  {
    FillOneMarker(pre, post, SuiteClassList(ref), "INSERT TEST CLASSES HERE>>>");
    assert SuiteMarker == "<<<" + "INSERT TEST CLASSES HERE>>>";
  }

  lemma FillOneMarker(pre: string, post: string, fill: string, x: string)
    requires NoMarkerStart(pre) && NoMarkerStart(post)
    ensures ReplaceAll(pre + ("<<<" + x) + post, "<<<" + x, fill) == pre + fill + post
  {
    ReplaceAllAfterPlain(pre, "<<<" + x, fill, post);
    NotContainsWithoutHead(post, "<<<" + x);
    ReplaceAllAbsent(post, "<<<" + x, fill);
  }
}
