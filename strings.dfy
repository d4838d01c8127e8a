/** String helpers shared by the generator, the printers and the symbol-table log. */
module Strings {

  predicate IsDigit(c: char) { '0' <= c <= '9' }
  predicate IsUpper(c: char) { 'A' <= c <= 'Z' }
  predicate IsLower(c: char) { 'a' <= c <= 'z' }
  predicate IsAlnum(c: char) { IsDigit(c) || IsUpper(c) || IsLower(c) }

  /** ASCII upper-casing; every other character is left alone. */
  function Upper(c: char): char { if IsLower(c) then (c as int - 32) as char else c }

  /** ASCII lower-casing; every other character is left alone. */
  function Lower(c: char): char { if IsUpper(c) then (c as int + 32) as char else c }

  /** Whitespace as Python's `str.strip()` sees it, restricted to ASCII. */
  predicate IsSpace(c: char) {
    c == ' ' || c == '\t' || c == '\n' || c == '\r' || c == '\U{B}' || c == '\U{C}'
    || ('\U{1C}' <= c <= '\U{1F}')
  }

  /** `n` copies of `s` side by side (Python's `s * n`, Java's repeated append). */
  function Repeat(s: string, n: nat): (r: string)
    ensures |r| == n * |s|
  {
    if n == 0 then "" else Repeat(s, n - 1) + s
  }

  /** `parts` with `sep` between neighbours; no leading or trailing separator. */
  function Join(parts: seq<string>, sep: string): string
  {
    if |parts| == 0 then ""
    else if |parts| == 1 then parts[0]
    else Join(parts[..|parts| - 1], sep) + sep + parts[|parts| - 1]
  }

  /** The parts side by side. */
  function Concat(parts: seq<string>): string
  {
    if |parts| == 0 then "" else Concat(parts[..|parts| - 1]) + parts[|parts| - 1]
  }

  lemma {:induction false} ConcatCons(p: string, parts: seq<string>)
    ensures Concat([p] + parts) == p + Concat(parts)
    decreases |parts|
  {
    if |parts| == 0 {
      assert ([p] + parts)[..0] == [];
    } else {
      var init := parts[..|parts| - 1];
      assert ([p] + parts)[..|parts|] == [p] + init;
      ConcatCons(p, init);
    }
  }

  predicate IsPrefix(p: string, s: string) { |p| <= |s| && s[..|p|] == p }

  predicate IsSuffix(p: string, s: string) { |p| <= |s| && s[|s| - |p|..] == p }

  /** `sub` occurs somewhere in `s` (Python's `sub in s`). */
  predicate Contains(s: string, sub: string)
    decreases |s|
  {
    IsPrefix(sub, s) || (|s| > 0 && Contains(s[1..], sub))
  }

  /** Python's `s.replace(pat, rep)`: every non-overlapping occurrence, scanning left to right. */
  function ReplaceAll(s: string, pat: string, rep: string): string
    requires |pat| > 0
    decreases |s|
  {
    if |s| < |pat| then s
    else if s[..|pat|] == pat then rep + ReplaceAll(s[|pat|..], pat, rep)
    else [s[0]] + ReplaceAll(s[1..], pat, rep)
  }

  /** Decimal digits of a natural number, as Java's `Integer.toString` and Python's `%d` print it. */
  function NatToString(n: nat): (r: string)
    ensures |r| > 0
    decreases n
  {
    if n < 10 then [('0' as int + n) as char]
    else NatToString(n / 10) + [('0' as int + n % 10) as char]
  }

  function IntToString(i: int): string
  {
    if i < 0 then "-" + NatToString(-i) else NatToString(i)
  }

  /** Python's `s.strip()` over ASCII whitespace. */
  function Strip(s: string): (r: string)
    decreases |s|
  {
    if |s| > 0 && IsSpace(s[0]) then Strip(s[1..])
    else if |s| > 0 && IsSpace(s[|s| - 1]) then Strip(s[..|s| - 1])
    else s
  }

  /** The pieces of `s` between occurrences of `c`. */
  function Split(s: string, c: char): seq<string>
    decreases |s|
  {
    SplitFrom(s, c, "")
  }

  function SplitFrom(s: string, c: char, acc: string): seq<string>
    decreases |s|
  {
    if |s| == 0 then [acc]
    else if s[0] == c then [acc] + SplitFrom(s[1..], c, "")
    else SplitFrom(s[1..], c, acc + [s[0]])
  }

  /** Regrouping text appended piece by piece after what was there before. */
  lemma Assoc2(o: string, a: string, b: string)
    ensures o + a + b == o + (a + b)
  {
  }

  lemma Assoc3(o: string, a: string, b: string, c: string)
    ensures o + a + b + c == o + (a + b + c)
  {
  }

  lemma Assoc4(o: string, a: string, b: string, c: string, d: string)
    ensures o + a + b + c + d == o + (a + b + c + d)
  {
  }

  lemma Assoc5(o: string, a: string, b: string, c: string, d: string, e: string)
    ensures o + a + b + c + d + e == o + (a + b + c + d + e)
  {
  }

  lemma JoinSingleton(p: string, sep: string)
    ensures Join([p], sep) == p
  {
  }

  lemma JoinSnoc(parts: seq<string>, p: string, sep: string)
    requires |parts| > 0
    ensures Join(parts + [p], sep) == Join(parts, sep) + sep + p
  {
    assert (parts + [p])[..|parts|] == parts;
  }

  /** An occurrence at a known index makes `sub` a substring. */
  lemma ContainsAt(s: string, sub: string, i: nat)
    requires i + |sub| <= |s| && s[i..i + |sub|] == sub
    ensures Contains(s, sub)
    decreases i
  {
    if i > 0 {
      assert s[1..][i - 1..i - 1 + |sub|] == s[i..i + |sub|];
      ContainsAt(s[1..], sub, i - 1);
    }
  }

  /** A two-character substring shows up as two neighbouring characters. */
  lemma ContainsPairWitness(s: string, p: string)
    requires |p| == 2 && Contains(s, p)
    ensures exists i :: 0 <= i < |s| - 1 && s[i] == p[0] && s[i + 1] == p[1]
    decreases |s|
  {
    if IsPrefix(p, s) {
      assert s[0] == p[0] && s[1] == p[1];
    } else {
      ContainsPairWitness(s[1..], p);
      var i :| 0 <= i < |s[1..]| - 1 && s[1..][i] == p[0] && s[1..][i + 1] == p[1];
      assert s[i + 1] == p[0] && s[i + 2] == p[1];
    }
  }

  /** `a + sub + b` contains `sub`. */
  lemma ContainsMiddle(a: string, sub: string, b: string)
    ensures Contains(a + sub + b, sub)
  {
    var s := a + sub + b;
    assert s[|a|..|a| + |sub|] == sub;
    ContainsAt(s, sub, |a|);
  }

  /** A string without the character `pat[0]` holds no occurrence of `pat`. */
  lemma NotContainsWithoutHead(s: string, pat: string)
    requires |pat| > 0 && forall i :: 0 <= i < |s| ==> s[i] != pat[0]
    ensures !Contains(s, pat)
    decreases |s|
  {
    if |s| > 0 {
      NotContainsWithoutHead(s[1..], pat);
    }
  }

  /** Replacing in a string without `pat` changes nothing. */
  lemma ReplaceAllAbsent(s: string, pat: string, rep: string)
    requires |pat| > 0 && !Contains(s, pat)
    ensures ReplaceAll(s, pat, rep) == s
    decreases |s|
  {
    if |s| >= |pat| {
      assert !IsPrefix(pat, s);
      ReplaceAllAbsent(s[1..], pat, rep);
    }
  }

  /** When `a` has no character starting `pat`, replacement passes over `a` and
      then hits the occurrence of `pat` that follows. */
  lemma ReplaceAllAfterPlain(a: string, pat: string, rep: string, b: string)
    requires |pat| > 0 && forall i :: 0 <= i < |a| ==> a[i] != pat[0]
    ensures ReplaceAll(a + pat + b, pat, rep) == a + rep + ReplaceAll(b, pat, rep)
  {
    assert a + pat + b == a + (pat + b);
    ReplaceAllSkipPlain(a, pat + b, pat, rep);
    assert (pat + b)[..|pat|] == pat;
    assert (pat + b)[|pat|..] == b;
  }

  /** A character that cannot start `pat` is copied and replacement goes on after it. */
  lemma ReplaceAllStep(c: char, t: string, pat: string, rep: string)
    requires |pat| > 0 && c != pat[0]
    ensures ReplaceAll([c] + t, pat, rep) == [c] + ReplaceAll(t, pat, rep)
  {
    var s := [c] + t;
    assert s[1..] == t;
    if |s| >= |pat| {
      assert s[..|pat|][0] == c;
    }
  }

  /** Replacement passes unchanged over a prefix without the character starting `pat`. */
  lemma {:induction false} ReplaceAllSkipPlain(a: string, s: string, pat: string, rep: string)
    requires |pat| > 0 && forall i :: 0 <= i < |a| ==> a[i] != pat[0]
    ensures ReplaceAll(a + s, pat, rep) == a + ReplaceAll(s, pat, rep)
    decreases |a|
  {
    if |a| > 0 {
      var c, rest := a[0], a[1..];
      assert a == [c] + rest;
      forall i | 0 <= i < |rest| ensures rest[i] != pat[0] {
        assert rest[i] == a[i + 1];
      }
      ReplaceAllSkipPlain(rest, s, pat, rep);
      ConsShift(c, rest, s, pat, rep);
    } else {
      assert a + s == s;
    }
  }

  /** The step of `ReplaceAllSkipPlain`, over abstract pieces. */
  lemma ConsShift(c: char, rest: string, s: string, pat: string, rep: string)
    requires |pat| > 0 && c != pat[0]
    requires ReplaceAll(rest + s, pat, rep) == rest + ReplaceAll(s, pat, rep)
    ensures ReplaceAll([c] + rest + s, pat, rep) == [c] + rest + ReplaceAll(s, pat, rep)
  {
    assert [c] + rest + s == [c] + (rest + s);
    ReplaceAllStep(c, rest + s, pat, rep);
    assert [c] + (rest + ReplaceAll(s, pat, rep)) == [c] + rest + ReplaceAll(s, pat, rep);
  }

  /** Putting one character that starts no occurrence in front of a string that
      replacement leaves alone gives a string that replacement leaves alone. */
  lemma ReplaceAllConsFixed(c: char, t: string, pat: string, rep: string, k: nat)
    requires |pat| > 0 && ReplaceAll(t, pat, rep) == t
    requires k < |pat| && (k == 0 ==> c != pat[0]) && (k > 0 ==> k - 1 < |t| && t[k - 1] != pat[k])
    ensures ReplaceAll([c] + t, pat, rep) == [c] + t
  {
    var s := [c] + t;
    assert s[1..] == t;
    if |s| >= |pat| {
      assert s[..|pat|][k] != pat[k];
    }
  }

  lemma SuffixOfAppend(p: string, f: string)
    ensures IsSuffix(f, p + f)
  {
    assert (p + f)[|p + f| - |f|..] == f;
  }

  /** `((a + x) + b) + c` contains `x`. */
  lemma ContainsInfix(a: string, x: string, b: string, c: string)
    ensures Contains(a + x + b + c, x)
  {
    assert a + x + b + c == a + x + (b + c);
    ContainsMiddle(a, x, b + c);
  }

  /** `c` directly followed by `d` somewhere in `s`. */
  predicate HasPair(s: string, c: char, d: char)
  {
    exists i :: 0 <= i < |s| - 1 && s[i] == c && s[i + 1] == d
  }

  /** A two-character string occurs exactly where its characters are neighbours. */
  lemma ContainsPairIff(s: string, c: char, d: char)
    ensures Contains(s, [c, d]) <==> HasPair(s, c, d)
  {
    if Contains(s, [c, d]) {
      ContainsPairWitness(s, [c, d]);
    }
    if HasPair(s, c, d) {
      var i :| 0 <= i < |s| - 1 && s[i] == c && s[i + 1] == d;
      assert s[i..i + 2] == [c, d];
      ContainsAt(s, [c, d], i);
    }
  }

  /** No pair in `s` means no pair in any suffix `s[k..]`. */
  lemma NoPairInSuffix(s: string, k: nat, c: char, d: char)
    requires k <= |s| && !HasPair(s, c, d)
    ensures !HasPair(s[k..], c, d)
  {
    forall i | 0 <= i < |s[k..]| - 1 ensures !(s[k..][i] == c && s[k..][i + 1] == d) {
      assert s[k..][i] == s[i + k] && s[k..][i + 1] == s[i + k + 1];
    }
  }

  /** Replacing the pair `ab` by a text that neither holds nor borders the pair `cd`
      leaves no `cd` behind: none survives from `s` when `cd` is `ab` itself or is
      absent from `s`, and none is formed at the seams. The first character of the
      result is the first of `s` or of `rep`. */
  lemma {:induction false} PairFreeAfterReplace(s: string, a: char, b: char, rep: string, c: char, d: char)
    requires |rep| > 0 && rep[0] != d && rep[|rep| - 1] != c && !HasPair(rep, c, d)
    requires (c == a && d == b) || !HasPair(s, c, d)
    ensures !HasPair(ReplaceAll(s, [a, b], rep), c, d)
    ensures var r := ReplaceAll(s, [a, b], rep);
      |s| > 0 ==> |r| > 0 && (r[0] == s[0] || r[0] == rep[0])
    decreases |s|
  {
    var pat := [a, b];
    var r := ReplaceAll(s, pat, rep);
    if |s| < 2 {
    } else if s[..2] == pat {
      var t := ReplaceAll(s[2..], pat, rep);
      if !(c == a && d == b) {
        NoPairInSuffix(s, 2, c, d);
      }
      PairFreeAfterReplace(s[2..], a, b, rep, c, d);
      assert r == rep + t;
      forall i | 0 <= i < |r| - 1 ensures !(r[i] == c && r[i + 1] == d) {
        if i + 1 < |rep| {
          assert r[i] == rep[i] && r[i + 1] == rep[i + 1];
        } else if i + 1 == |rep| {
          assert r[i] == rep[|rep| - 1];
        } else {
          assert r[i] == t[i - |rep|] && r[i + 1] == t[i + 1 - |rep|];
        }
      }
    } else {
      var t := ReplaceAll(s[1..], pat, rep);
      if !(c == a && d == b) {
        NoPairInSuffix(s, 1, c, d);
      }
      PairFreeAfterReplace(s[1..], a, b, rep, c, d);
      assert r == [s[0]] + t;
      forall i | 0 <= i < |r| - 1 ensures !(r[i] == c && r[i + 1] == d) {
        if i == 0 {
          assert r[0] == s[0] && r[1] == t[0];
          assert s[..2] != [a, b];
          assert t[0] == s[1] || t[0] == rep[0];
        } else {
          assert r[i] == t[i - 1] && r[i + 1] == t[i];
        }
      }
    }
  }

  /** An occurrence at the front followed by text without its first character is
      the only one replaced. */
  lemma ReplaceLeadingOnly(p: string, tail: string, rep: string)
    requires |p| > 0 && forall i :: 0 <= i < |tail| ==> tail[i] != p[0]
    ensures ReplaceAll(p + tail, p, rep) == rep + tail && Contains(p + tail, p)
  {
    assert p + tail == "" + p + tail;
    ContainsAt(p + tail, p, 0);
    ReplaceAllAfterPlain("", p, rep, tail);
    NotContainsWithoutHead(tail, p);
    ReplaceAllAbsent(tail, p, rep);
  }
  // ------------------------------------------------------------------ parentheses

  function Opens(s: string): nat { multiset(s)['('] }

  function Closes(s: string): nat { multiset(s)[')'] }

  /** As many closing as opening parentheses, and no prefix closes more than it opened. */
  predicate Balanced(s: string)
  {
    Opens(s) == Closes(s) && forall i :: 0 <= i <= |s| ==> Closes(s[..i]) <= Opens(s[..i])
  }

  /** One parenthesised tree: balanced, and the first "(" is closed only at the end. */
  predicate SingleTree(s: string)
  {
    |s| >= 2 && s[0] == '(' && Balanced(s) && forall i :: 0 < i < |s| ==> Closes(s[..i]) < Opens(s[..i])
  }

  predicate NoParens(w: string)
  {
    forall i :: 0 <= i < |w| ==> w[i] != '(' && w[i] != ')'
  }

  lemma NoParensConcat(a: string, b: string)
    requires NoParens(a) && NoParens(b)
    ensures NoParens(a + b)
  {
    assert forall i :: 0 <= i < |a + b| ==> (a + b)[i] == if i < |a| then a[i] else b[i - |a|];
  }

  lemma WordBalanced(w: string)
    requires NoParens(w)
    ensures Balanced(w) && Opens(w) == 0
  {
    forall i | 0 <= i <= |w|
      ensures Opens(w[..i]) == 0 && Closes(w[..i]) == 0
    {
      assert '(' !in w[..i] && ')' !in w[..i];
    }
    assert w[..|w|] == w;
  }

  lemma BalancedConcat(a: string, b: string)
    requires Balanced(a) && Balanced(b)
    ensures Balanced(a + b)
  {
    forall i | 0 <= i <= |a + b|
      ensures Closes((a + b)[..i]) <= Opens((a + b)[..i])
    {
      if i <= |a| {
        assert (a + b)[..i] == a[..i];
      } else {
        assert (a + b)[..i] == a + b[..i - |a|];
      }
    }
  }

  lemma Wrapped(m: string)
    requires Balanced(m)
    ensures SingleTree("(" + m + ")")
  {
    var s := "(" + m + ")";
    forall i | 0 <= i <= |s|
      ensures Closes(s[..i]) <= Opens(s[..i])
      ensures 0 < i < |s| ==> Closes(s[..i]) < Opens(s[..i])
    {
      if 0 < i < |s| {
        assert s[..i] == "(" + m[..i - 1];
      } else if i == |s| {
        assert s[..i] == s;
      } else {
        assert s[..i] == [];
      }
    }
  }

  lemma JoinBalanced(parts: seq<string>, sep: string)
    requires NoParens(sep) && forall k :: 0 <= k < |parts| ==> Balanced(parts[k])
    ensures Balanced(Join(parts, sep))
    decreases |parts|
  {
    if |parts| == 0 {
      WordBalanced("");
    } else if |parts| > 1 {
      var init := parts[..|parts| - 1];
      assert forall k :: 0 <= k < |init| ==> init[k] == parts[k];
      JoinBalanced(init, sep);
      WordBalanced(sep);
      BalancedConcat(Join(init, sep), sep);
      BalancedConcat(Join(init, sep) + sep, parts[|parts| - 1]);
    }
  }

  /** The three shapes in which the printers parenthesise balanced pieces. */
  lemma WrapThree(a: string, b: string, c: string)
    requires Balanced(a) && Balanced(b) && Balanced(c)
    ensures Balanced("(" + a + b + c + ")")
  {
    BalancedConcat(a, b);
    BalancedConcat(a + b, c);
    Wrapped(a + b + c);
    assert "(" + a + b + c + ")" == "(" + (a + b + c) + ")";
  }

  lemma WrapTwo(a: string, b: string)
    requires Balanced(a) && Balanced(b)
    ensures Balanced(("(" + a) + b + ")")
  {
    BalancedConcat(a, b);
    Wrapped(a + b);
    assert ("(" + a) + b + ")" == "(" + (a + b) + ")";
  }

  lemma WrapAfter(p: string, x: string, b: string)
    requires NoParens(p) && NoParens(x) && Balanced(b)
    ensures Balanced((p + "(" + x + ",") + b + ")")
  {
    NoParensConcat(x, ",");
    WordBalanced(x + ",");
    WordBalanced(p);
    WrapTwo(x + ",", b);
    BalancedConcat(p, ("(" + (x + ",")) + b + ")");
    assert (p + "(" + x + ",") + b + ")" == p + (("(" + (x + ",")) + b + ")");
  }

  /** One more part after the first `k`: the separator goes in front of it unless it
      is the first. */
  lemma JoinAppend(base: string, parts: seq<string>, sep: string, k: nat)
    requires k < |parts|
    ensures base + Join(parts[..k + 1], sep)
      == if k == 0 then base + parts[0] else base + Join(parts[..k], sep) + sep + parts[k]
  {
    assert parts[..k + 1][..k] == parts[..k];
    if k > 0 {
      Assoc3(base, Join(parts[..k], sep), sep, parts[k]);
    }
  }

  /** Text between a fixed head and a fixed tail starts with the one and ends with the other. */
  lemma Framed(a: string, b: string, c: string)
    ensures IsPrefix(a, a + b + c) && IsSuffix(c, a + b + c)
    ensures b == "" ==> a + b + c == a + c
  {
    assert (a + b + c)[..|a|] == a;
    assert (a + b + c)[|a + b + c| - |c|..] == c;
  }
}
