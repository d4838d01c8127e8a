/**
 * The GoLite scanner's token filter: automatic semicolon insertion after a line's
 * final token, following rule 1 of the "Semicolons" section of The Go Programming
 * Language Specification.
 */
module Lexer {
  import opened Wrappers

  /** The token kinds the filter tells apart; every other token kind is `TOther`. */
  datatype Token =
    | TId
    | TBreak | TContinue | TFallthrough | TReturn
    | TInt | TFloat64 | TBool | TRune | TString
    | TPlusPlus | TMinusMinus | TRparen | TRsquare | TRbrace
    | TBoolLit | TIntLit | TOctLit | THexLit | TFloatLit | TRuneLit
    | TInterpretedStringLit | TRawStringLit
    | TSemi | TBlank | TComment | TEol | EOF
    | TOther(name: string)

  /** Tokens other than blanks, comments and line ends. */
  predicate IsEffective(t: Token)
  {
    !(t.TBlank? || t.TComment? || t.TEol?)
  }

  /** Tokens after which a line end ends a statement: identifiers, the keywords
      break, continue, fallthrough and return, the basic type names, `++`, `--`,
      closing brackets and every literal. */
  predicate IsTrigger(t: Token)
  {
    t.TId? || t.TBreak? || t.TContinue? || t.TFallthrough? || t.TReturn?
    || t.TInt? || t.TFloat64? || t.TBool? || t.TRune? || t.TString?
    || t.TPlusPlus? || t.TMinusMinus? || t.TRparen? || t.TRsquare? || t.TRbrace?
    || t.TBoolLit? || t.TIntLit? || t.TOctLit? || t.THexLit? || t.TFloatLit? || t.TRuneLit?
    || t.TInterpretedStringLit? || t.TRawStringLit?
  }

  /** A semicolon is due when the current token is a line end or the end of input and
      the last effective token is a trigger. */
  predicate RequiresSemi(token: Token, lastEffective: Option<Token>)
  {
    (token.TEol? || token.EOF?) && lastEffective.Some? && IsTrigger(lastEffective.value)
  }

  /** The token `filter` hands on. */
  function Filtered(token: Token, lastEffective: Option<Token>): (r: Token)
    ensures r == token || (r == TSemi && (token.TEol? || token.EOF?))
    ensures r == TSemi <==> token == TSemi || RequiresSemi(token, lastEffective)
  {
    if RequiresSemi(token, lastEffective) then TSemi else token
  }

  /** The last effective token after `filter` has handed on `filtered`. */
  function NextEffective(filtered: Token, lastEffective: Option<Token>): Option<Token>
  {
    if IsEffective(filtered) then Some(filtered) else lastEffective
  }

  /** The tokens the filter hands on for a raw token stream, starting from a given
      last effective token. */
  function FilterStream(raw: seq<Token>, lastEffective: Option<Token>): (out: seq<Token>)
    ensures |out| == |raw|
    decreases |raw|
  {
    if |raw| == 0 then []
    else
      var t := Filtered(raw[0], lastEffective);
      [t] + FilterStream(raw[1..], NextEffective(t, lastEffective))
  }

  /** The last effective token after the filter has handed on a whole stream. */
  function EffectiveAfter(raw: seq<Token>, lastEffective: Option<Token>): Option<Token>
    decreases |raw|
  {
    if |raw| == 0 then lastEffective
    else EffectiveAfter(raw[1..], NextEffective(Filtered(raw[0], lastEffective), lastEffective))
  }

  /** The filter's first step on the stream from position `i`. */
  lemma StreamStep(raw: seq<Token>, i: nat, last: Option<Token>)
    requires i < |raw|
    ensures var t := Filtered(raw[i], last);
      FilterStream(raw[i..], last) == [t] + FilterStream(raw[i + 1..], NextEffective(t, last))
      && EffectiveAfter(raw[i..], last) == EffectiveAfter(raw[i + 1..], NextEffective(t, last))
  {
    assert raw[i..][1..] == raw[i + 1..];
  }

  lemma AppendShift(out: seq<Token>, t: Token, rest: seq<Token>)
    ensures (out + [t]) + rest == out + ([t] + rest)
  {
  }

  /** The scanner subclass: the token the scanner just produced and the two tokens
      the filter remembers. */
  class GoLiteLexer {
    var token: Token
    var lastToken: Option<Token>
    var lastEffectiveToken: Option<Token>

    constructor ()
      ensures lastToken == None && lastEffectiveToken == None
    {
      token := EOF;
      lastToken := None;
      lastEffectiveToken := None;
    }

    /** `filter`: replace a line end or end of input by a semicolon when one is due,
        remember the token if it is effective, and remember it as the last token. */
    method Filter()
      modifies this
      ensures token == Filtered(old(token), old(lastEffectiveToken))
      ensures lastEffectiveToken == NextEffective(token, old(lastEffectiveToken))
      ensures lastToken == Some(token)
    {
      if RequiresSemi(token, lastEffectiveToken) {
        token := TSemi;
      }
      if IsEffective(token) {
        lastEffectiveToken := Some(token);
      }
      lastToken := Some(token);
    }

    /** The scanner's loop: each raw token becomes the current token and is filtered. */
    method FilterAll(raw: seq<Token>) returns (out: seq<Token>)
      modifies this
      ensures out == FilterStream(raw, old(lastEffectiveToken))
      ensures lastEffectiveToken == EffectiveAfter(raw, old(lastEffectiveToken))
      ensures |raw| > 0 ==> lastToken == Some(out[|raw| - 1])
      ensures |raw| == 0 ==> lastToken == old(lastToken) && token == old(token)
    {
      out := [];
      var i := 0;
      ghost var start := lastEffectiveToken;
      while i < |raw|
        invariant 0 <= i <= |raw|
        invariant out + FilterStream(raw[i..], lastEffectiveToken) == FilterStream(raw, start)
        invariant EffectiveAfter(raw[i..], lastEffectiveToken) == EffectiveAfter(raw, start)
        invariant |out| == i
        invariant i > 0 ==> lastToken == Some(out[i - 1])
        invariant i == 0 ==> lastToken == old(lastToken) && token == old(token)
      {
        ghost var le := lastEffectiveToken;
        StreamStep(raw, i, le);
        token := raw[i];
        Filter();
        var t := token;
        AppendShift(out, t, FilterStream(raw[i + 1..], lastEffectiveToken));
        out := out + [t];
        i := i + 1;
      }
    }
  }

  // ---------------------------------------------------------------- properties

  /** Only line ends and the end of input are ever rewritten, and only into semicolons. */
  lemma {:induction false} OnlyLineEndsRewritten(raw: seq<Token>, last: Option<Token>)
    ensures forall i :: 0 <= i < |raw| && !raw[i].TEol? && !raw[i].EOF? ==> FilterStream(raw, last)[i] == raw[i]
    ensures forall i :: 0 <= i < |raw| ==> FilterStream(raw, last)[i] == raw[i] || FilterStream(raw, last)[i] == TSemi
    decreases |raw|
  {
    if |raw| > 0 {
      var t := Filtered(raw[0], last);
      OnlyLineEndsRewritten(raw[1..], NextEffective(t, last));
      forall i | 0 < i < |raw| ensures FilterStream(raw, last)[i] == FilterStream(raw[1..], NextEffective(t, last))[i - 1] {
      }
    }
  }

  /** The semicolon inserted for a line end is itself effective but no trigger, so a
      run of line ends after a trigger yields exactly one semicolon. */
  lemma {:induction false} OneSemiPerLineEndRun(trigger: Token, n: nat)
    requires IsTrigger(trigger) && n > 0
    ensures FilterStream(seq(n, _ => TEol), Some(trigger)) == [TSemi] + seq(n - 1, _ => TEol)
  {
    var eols := seq(n, _ => TEol);
    assert Filtered(eols[0], Some(trigger)) == TSemi;
    assert !IsTrigger(TSemi) && IsEffective(TSemi);
    assert eols[1..] == seq(n - 1, _ => TEol);
    LineEndsAfterSemi(n - 1);
  }

  /** Once the last effective token is a semicolon, line ends pass unchanged. */
  lemma {:induction false} LineEndsAfterSemi(n: nat)
    ensures FilterStream(seq(n, _ => TEol), Some(TSemi)) == seq(n, _ => TEol)
    decreases n
  {
    if n > 0 {
      var eols := seq(n, _ => TEol);
      assert eols[1..] == seq(n - 1, _ => TEol);
      LineEndsAfterSemi(n - 1);
    }
  }

  /** Blanks and comments between a trigger and a line end do not prevent the insertion:
      they pass unchanged and the line end becomes a semicolon. */
  lemma {:induction false} IgnoredTokensKeepTrigger(ignored: seq<Token>, trigger: Token)
    requires IsTrigger(trigger)
    requires forall i :: 0 <= i < |ignored| ==> ignored[i].TBlank? || ignored[i].TComment?
    ensures FilterStream(ignored + [TEol], Some(trigger)) == ignored + [TSemi]
    decreases |ignored|
  {
    if |ignored| == 0 {
      assert ignored + [TEol] == [TEol];
    } else {
      assert (ignored + [TEol])[1..] == ignored[1..] + [TEol];
      IgnoredTokensKeepTrigger(ignored[1..], trigger);
    }
  }

  /** The last effective token only moves to an effective token. */
  lemma NextEffectiveIsEffective(filtered: Token, last: Option<Token>)
    requires last.Some? ==> IsEffective(last.value)
    ensures var r := NextEffective(filtered, last); r.Some? ==> IsEffective(r.value)
    ensures !IsEffective(filtered) ==> NextEffective(filtered, last) == last
  {
  }
}
