/**
 The printf format verifier: splits a format string into conversion tokens
 matching `%-?[0-9]*[a-zA-Z]+` and checks the argument count and each
 argument's category against a table from conversion specifier to category.
 */
module Printf {
  import opened Types

  predicate IsDigit(c: char) { '0' <= c <= '9' }

  predicate IsLetter(c: char) { 'a' <= c <= 'z' || 'A' <= c <= 'Z' }

  /** Length of the run of digits starting at `i`. */
  function DigitRun(s: string, i: nat): (n: nat)
    requires i <= |s|
    ensures i + n <= |s|
    ensures forall k :: i <= k < i + n ==> IsDigit(s[k])
    ensures i + n == |s| || !IsDigit(s[i + n])
    decreases |s| - i
  {
    if i < |s| && IsDigit(s[i]) then 1 + DigitRun(s, i + 1) else 0
  }

  /** Length of the run of letters starting at `i`. */
  function LetterRun(s: string, i: nat): (n: nat)
    requires i <= |s|
    ensures i + n <= |s|
    ensures forall k :: i <= k < i + n ==> IsLetter(s[k])
    ensures i + n == |s| || !IsLetter(s[i + n])
    decreases |s| - i
  {
    if i < |s| && IsLetter(s[i]) then 1 + LetterRun(s, i + 1) else 0
  }

  /**
   `t` is '%', then an optional '-' (ending at `p`), then digits (ending at
   `q`), then one or more letters up to the end.
   */
  predicate TokenShape(t: string, p: nat, q: nat)
  {
    && 1 <= p <= q < |t|
    && t[0] == '%'
    && (p == 1 || (p == 2 && t[1] == '-'))
    && (forall k :: p <= k < q ==> IsDigit(t[k]))
    && (forall k :: q <= k < |t| ==> IsLetter(t[k]))
  }

  ghost predicate IsToken(t: string)
  {
    exists p: nat, q: nat :: TokenShape(t, p, q)
  }

  /** Where the '-' flag, if present, ends. */
  function FlagEnd(s: string, i: nat): (j: nat)
    requires i < |s|
    ensures i + 1 <= j <= |s|
  {
    if i + 1 < |s| && s[i + 1] == '-' then i + 2 else i + 1
  }

  /**
   Length of the regex match beginning at `i`, or 0 when none begins there.
   The match is greedy and, under backtracking, unique: it needs a letter after
   the flag and the maximal run of digits.
   */
  function MatchAt(s: string, i: nat): (n: nat)
    requires i <= |s|
    ensures i + n <= |s|
  {
    if i < |s| && s[i] == '%' then
      var j := FlagEnd(s, i);
      var k := j + DigitRun(s, j);
      var l := LetterRun(s, k);
      if l > 0 then k + l - i else 0
    else 0
  }

  lemma MatchAtIsToken(s: string, i: nat)
    requires i <= |s| && MatchAt(s, i) > 0
    ensures IsToken(s[i..i + MatchAt(s, i)])
  {
    var t := s[i..i + MatchAt(s, i)];
    var j := FlagEnd(s, i);
    var k := j + DigitRun(s, j);
    assert TokenShape(t, j - i, k - i);
  }

  /**
   No match beginning at `i` is longer than `MatchAt(s, i)`; in particular a
   position where `MatchAt` is 0 begins no match, so the scanner skips none.
   */
  lemma MatchAtIsLongest(s: string, i: nat, m: nat)
    requires i + m <= |s| && IsToken(s[i..i + m])
    ensures MatchAt(s, i) >= m
  {
    var t := s[i..i + m];
    var p: nat, q: nat :| TokenShape(t, p, q);
    assert s[i] == t[0] == '%';
    assert FlagEnd(s, i) == i + p by {
      if p == 1 {
        assert IsDigit(t[1]) || IsLetter(t[1]);
        assert s[i + 1] == t[1];
      }
    }
    var d := DigitRun(s, i + p);
    assert d == q - p by {
      forall k | i + p <= k < i + q ensures IsDigit(s[k]) {
        assert s[k] == t[k - i];
      }
      assert s[i + q] == t[q];
    }
    var l := LetterRun(s, i + q);
    assert l >= m - q;
  }

  /** Leftmost, non-overlapping matches from position `i` onward. */
  function TokensFrom(s: string, i: nat): (toks: seq<string>)
    requires i <= |s|
    decreases |s| - i
  {
    if i == |s| then []
    else
      var n := MatchAt(s, i);
      if n > 0 then [s[i..i + n]] + TokensFrom(s, i + n)
      else TokensFrom(s, i + 1)
  }

  function Tokens(fmt: string): seq<string>
  {
    TokensFrom(fmt, 0)
  }

  lemma {:induction false} TokensFromWellFormed(s: string, i: nat)
    requires i <= |s|
    ensures forall t :: t in TokensFrom(s, i) ==> IsToken(t)
    decreases |s| - i
  {
    if i < |s| {
      var n := MatchAt(s, i);
      if n > 0 {
        MatchAtIsToken(s, i);
        TokensFromWellFormed(s, i + n);
      } else {
        TokensFromWellFormed(s, i + 1);
      }
    }
  }

  /** Every token the scanner returns matches `%-?[0-9]*[a-zA-Z]+`. */
  lemma TokensWellFormed(fmt: string)
    ensures forall t :: t in Tokens(fmt) ==> IsToken(t)
  {
    TokensFromWellFormed(fmt, 0);
  }

  /** A '%' cannot start a token when the next '%' is consumed as the text before it. */
  lemma PercentPercentIsOneToken()
    ensures Tokens("%%d") == ["%d"]
  {
    assert MatchAt("%%d", 0) == 0;
    assert MatchAt("%%d", 1) == 2;
    assert "%%d"[1..3] == "%d";
  }

  /** The conversion specifier: the token with '%', the '-' flag and the width digits skipped. */
  function Specifier(tok: string): string
  {
    if |tok| == 0 then ""
    else
      var j := FlagEnd(tok, 0);
      tok[j + DigitRun(tok, j)..]
  }

  /** On a well-formed token the specifier is exactly the trailing letters. */
  lemma SpecifierOfToken(t: string, p: nat, q: nat)
    requires TokenShape(t, p, q)
    ensures Specifier(t) == t[q..]
    ensures |Specifier(t)| > 0
    ensures forall k :: 0 <= k < |Specifier(t)| ==> IsLetter(Specifier(t)[k])
  {
    assert FlagEnd(t, 0) == p;
    DigitRunStopsAt(t, p, q);
  }

  lemma {:induction false} DigitRunStopsAt(t: string, p: nat, q: nat)
    requires p <= q < |t|
    requires forall k :: p <= k < q ==> IsDigit(t[k])
    requires !IsDigit(t[q])
    ensures p + DigitRun(t, p) == q
    decreases q - p
  {
    if p < q {
      DigitRunStopsAt(t, p + 1, q);
    }
  }

  /** What `verify_format_string` returns; `FormatOk` is the empty message. */
  datatype FormatCheck =
    | FormatOk
    | NotEnoughArgs(nargs: nat, ntokens: nat)
    | TooManyArgs(nargs: nat, ntokens: nat)
    | UnknownToken(spec: string)
    | SpecifierMismatch(spec: string, wanted: Type, given: Type)

  /** Symbols are printed as strings. */
  function PrintedAs(t: Type): (r: Type)
    ensures r != Sym && r != USym
    ensures t == Sym || t == USym ==> r == String
    ensures t != Sym && t != USym ==> r == t
  {
    if t == Sym || t == USym then String else t
  }

  predicate Fits(table: map<string, Type>, tok: string, arg: SizedType)
  {
    Specifier(tok) in table && table[Specifier(tok)] == PrintedAs(arg.ty)
  }

  /** The diagnostic for one token/argument pair that does not fit. */
  function Misfit(table: map<string, Type>, tok: string, arg: SizedType): (r: FormatCheck)
    requires !Fits(table, tok, arg)
    ensures r.UnknownToken? <==> Specifier(tok) !in table
    ensures r.SpecifierMismatch? ==> r.wanted != r.given
  {
    var spec := Specifier(tok);
    if spec !in table then UnknownToken(spec)
    else SpecifierMismatch(spec, table[spec], PrintedAs(arg.ty))
  }

  /** The per-argument loop: stops at the first token/argument pair that does not fit. */
  function CheckArgs(table: map<string, Type>, toks: seq<string>, args: seq<SizedType>): (r: FormatCheck)
    requires |toks| == |args|
    ensures r == FormatOk <==> forall i :: 0 <= i < |toks| ==> Fits(table, toks[i], args[i])
    ensures r.UnknownToken? || r.SpecifierMismatch? || r == FormatOk
  {
    if toks == [] then FormatOk
    else if !Fits(table, toks[0], args[0]) then Misfit(table, toks[0], args[0])
    else
      var rest := CheckArgs(table, toks[1..], args[1..]);
      assert forall i :: 1 <= i < |toks| ==> toks[i] == toks[1..][i - 1] && args[i] == args[1..][i - 1];
      rest
  }

  /** The reported misfit is the first one in argument order. */
  lemma {:induction false} CheckArgsReportsFirstMisfit(table: map<string, Type>, toks: seq<string>, args: seq<SizedType>)
    requires |toks| == |args|
    requires CheckArgs(table, toks, args) != FormatOk
    ensures exists k :: 0 <= k < |toks| && (forall j :: 0 <= j < k ==> Fits(table, toks[j], args[j]))
              && !Fits(table, toks[k], args[k]) && CheckArgs(table, toks, args) == Misfit(table, toks[k], args[k])
  {
    if !Fits(table, toks[0], args[0]) {
      assert 0 < |toks| && CheckArgs(table, toks, args) == Misfit(table, toks[0], args[0]);
    } else {
      CheckArgsReportsFirstMisfit(table, toks[1..], args[1..]);
      var k :| 0 <= k < |toks| - 1 && (forall j :: 0 <= j < k ==> Fits(table, toks[1..][j], args[1..][j]))
                && !Fits(table, toks[1..][k], args[1..][k])
                && CheckArgs(table, toks[1..], args[1..]) == Misfit(table, toks[1..][k], args[1..][k]);
      assert forall j :: 0 <= j < k + 1 ==> Fits(table, toks[j], args[j]) by {
        forall j | 0 <= j < k + 1
          ensures Fits(table, toks[j], args[j])
        {
          if j > 0 {
            assert toks[j] == toks[1..][j - 1] && args[j] == args[1..][j - 1];
          }
        }
      }
      assert toks[k + 1] == toks[1..][k] && args[k + 1] == args[1..][k];
    }
  }

  /** `verify_format_string`: the count is checked first, then each pair in order. */
  function VerifyFormatString(table: map<string, Type>, fmt: string, args: seq<SizedType>): (r: FormatCheck)
    ensures r.NotEnoughArgs? <==> |args| < |Tokens(fmt)|
    ensures r.NotEnoughArgs? ==> r == NotEnoughArgs(|args|, |Tokens(fmt)|)
    ensures r.TooManyArgs? <==> |args| > |Tokens(fmt)|
    ensures r.TooManyArgs? ==> r == TooManyArgs(|args|, |Tokens(fmt)|)
    ensures r == FormatOk <==>
      |args| == |Tokens(fmt)| && forall i :: 0 <= i < |args| ==> Fits(table, Tokens(fmt)[i], args[i])
  {
    var toks := Tokens(fmt);
    if |args| < |toks| then NotEnoughArgs(|args|, |toks|)
    else if |args| > |toks| then TooManyArgs(|args|, |toks|)
    else CheckArgs(table, toks, args)
  }
}
