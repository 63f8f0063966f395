/**
 * The string operations the viewer relies on: JavaScript's white-space class,
 * `toLowerCase`, `includes`, `trim`, `parseFloat` and the numeric-token
 * pattern `(\d+\.\d+|\d+)`.
 */
module Text {
  import opened Wrappers
  import opened Exif

  predicate IsDigit(c: char)
  {
    '0' <= c <= '9'
  }

  /** JavaScript's `\s` (and the characters `trim` removes). */
  predicate IsWs(c: char)
  {
    c == '\t' || c == '\n' || c == '\U{000B}' || c == '\U{000C}' || c == '\r' || c == ' ' ||
    c == '\U{00A0}' || c == '\U{1680}' || ('\U{2000}' <= c <= '\U{200A}') ||
    c == '\U{2028}' || c == '\U{2029}' || c == '\U{202F}' || c == '\U{205F}' ||
    c == '\U{3000}' || c == '\U{FEFF}'
  }

  function LowerChar(c: char): (r: char)
    ensures 'A' <= c <= 'Z' ==> r as int == c as int + 32
    ensures !('A' <= c <= 'Z') ==> r == c
  {
    if 'A' <= c <= 'Z' then (c as int + 32) as char else c
  }

  /** `toLowerCase`, on the ASCII letters. */
  function Lower(s: string): (r: string)
    ensures |r| == |s|
    ensures forall i :: 0 <= i < |s| ==> r[i] == LowerChar(s[i])
  {
    seq(|s|, i requires 0 <= i < |s| => LowerChar(s[i]))
  }

  /** `s.includes(w)`. */
  predicate Contains(s: string, w: string)
    decreases |s|
  {
    |w| <= |s| && (s[..|w|] == w || (|s| > 0 && Contains(s[1..], w)))
  }

  lemma {:induction false} ContainsAt(s: string, w: string, i: nat)
    requires i + |w| <= |s| && s[i..i + |w|] == w
    ensures Contains(s, w)
    decreases i
  {
    if i > 0 {
      assert s[1..][i - 1..i - 1 + |w|] == s[i..i + |w|];
      ContainsAt(s[1..], w, i - 1);
    }
  }

  lemma {:induction false} ContainsPrefix(a: string, b: string, w: string)
    requires Contains(a, w)
    ensures Contains(a + b, w)
    decreases |a|
  {
    if a[..|w|] == w {
      assert (a + b)[..|w|] == w;
    } else {
      assert (a + b)[1..] == a[1..] + b;
      ContainsPrefix(a[1..], b, w);
    }
  }

  lemma {:induction false} ContainsSuffix(a: string, b: string, w: string)
    requires Contains(b, w)
    ensures Contains(a + b, w)
    decreases |a|
  {
    if |a| > 0 {
      assert (a + b)[1..] == a[1..] + b;
      ContainsSuffix(a[1..], b, w);
    } else {
      assert a + b == b;
    }
  }

  /** A string without the first character of `w` does not include `w`. */
  lemma {:induction false} NotContains(s: string, w: string)
    requires w != "" && forall i :: 0 <= i < |s| ==> s[i] != w[0]
    ensures !Contains(s, w)
    decreases |s|
  {
    if |w| <= |s| {
      assert s[..|w|][0] != w[0];
      if |s| > 0 {
        NotContains(s[1..], w);
      }
    }
  }

  /** Number of white-space characters at the start of `s`. */
  function LeadingWs(s: string): (n: nat)
    ensures n <= |s|
    ensures forall i :: 0 <= i < n ==> IsWs(s[i])
    ensures n == |s| || !IsWs(s[n])
  {
    if |s| > 0 && IsWs(s[0]) then 1 + LeadingWs(s[1..]) else 0
  }

  /** Length of `s` once its trailing white space is dropped. */
  function TrimmedEnd(s: string): (n: nat)
    ensures n <= |s|
    ensures forall i :: n <= i < |s| ==> IsWs(s[i])
    ensures n == 0 || !IsWs(s[n - 1])
  {
    if |s| > 0 && IsWs(s[|s| - 1]) then TrimmedEnd(s[..|s| - 1]) else |s|
  }

  /** `s.trim()`. */
  function Trim(s: string): (r: string)
    ensures |r| <= |s|
    ensures r == "" || (!IsWs(r[0]) && !IsWs(r[|r| - 1]))
    ensures forall i :: 0 <= i < |s| && !IsWs(s[i]) ==> |r| > 0
  {
    var t := s[LeadingWs(s)..];
    t[..TrimmedEnd(t)]
  }

  predicate AllWs(s: string)
  {
    forall i :: 0 <= i < |s| ==> IsWs(s[i])
  }

  /**
   * `trim` removes white space from both ends and nothing else: the input is
   * the result with white space before and after it.
   */
  lemma TrimSpec(s: string)
    ensures exists pre, post :: AllWs(pre) && AllWs(post) && s == pre + Trim(s) + post
  {
    var i := LeadingWs(s);
    var t := s[i..];
    var j := TrimmedEnd(t);
    assert s == s[..i] + t[..j] + t[j..];
    assert AllWs(s[..i]) && AllWs(t[j..]);
  }

  /** Length of the run of digits that starts at `i`. */
  function DigitRun(s: string, i: nat): (j: nat)
    requires i <= |s|
    ensures i <= j <= |s|
    ensures forall k :: i <= k < j ==> IsDigit(s[k])
    ensures j == |s| || !IsDigit(s[j])
    decreases |s| - i
  {
    if i < |s| && IsDigit(s[i]) then DigitRun(s, i + 1) else i
  }

  /** Index of the first digit at or after `i`, or `|s|` when there is none. */
  function FindDigit(s: string, i: nat): (j: nat)
    requires i <= |s|
    ensures i <= j <= |s|
    ensures forall k :: i <= k < j ==> !IsDigit(s[k])
    ensures j < |s| ==> IsDigit(s[j])
    decreases |s| - i
  {
    if i == |s| || IsDigit(s[i]) then i else FindDigit(s, i + 1)
  }

  /** A run of digits from `i` to `j` that ends there is what `DigitRun` measures. */
  lemma {:induction false} DigitRunEnds(s: string, i: nat, j: nat)
    requires i <= j <= |s|
    requires forall k :: i <= k < j ==> IsDigit(s[k])
    requires j == |s| || !IsDigit(s[j])
    ensures DigitRun(s, i) == j
    decreases j - i
  {
    if i < j {
      DigitRunEnds(s, i + 1, j);
    }
  }

  function DigitValue(c: char): nat
  {
    if IsDigit(c) then (c as int - '0' as int) else 0
  }

  /** The value of a string of decimal digits. */
  function NatValue(ds: string): nat
  {
    if ds == [] then 0 else NatValue(ds[..|ds| - 1]) * 10 + DigitValue(ds[|ds| - 1])
  }

  /** `x` times ten to the power `e`, one digit shift at a time. */
  function Shift(x: real, e: int): (r: real)
    ensures x >= 0.0 ==> r >= 0.0
    ensures x > 0.0 ==> r > 0.0
    decreases if e < 0 then -e else e
  {
    if e == 0 then x
    else if e > 0 then Shift(x, e - 1) * 10.0
    else Shift(x, e + 1) / 10.0
  }

  /** `digits` and `digits.digits` read as one decimal number. */
  function DecimalValue(whole: string, frac: string): (r: real)
    ensures r >= 0.0
  {
    NatValue(whole) as real + Shift(NatValue(frac) as real, -|frac|)
  }

  /**
   * One match of `(\d+\.\d+|\d+)`: the digits before the point and, for the
   * first alternative, the digits after it (empty for the second alternative).
   */
  datatype Token = Token(whole: string, frac: string)
  {
    function Text(): string
    {
      if frac == "" then whole else whole + "." + frac
    }

    /** What the pattern can match: digits, then possibly a point and more digits. */
    predicate WellFormed()
    {
      whole != "" && (forall i :: 0 <= i < |whole| ==> IsDigit(whole[i])) &&
      forall i :: 0 <= i < |frac| ==> IsDigit(frac[i])
    }

    /** `parseFloat` of the matched text. */
    function Value(): (r: real)
      ensures r >= 0.0
    {
      DecimalValue(whole, frac)
    }
  }

  /** The match that starts at the digit `s[p]`, and the index just after it. */
  function TokenAt(s: string, p: nat): (r: (Token, nat))
    requires p < |s| && IsDigit(s[p])
    ensures p < r.1 <= |s|
  {
    var j := DigitRun(s, p);
    if j + 1 < |s| && s[j] == '.' && IsDigit(s[j + 1]) then
      (Token(s[p..j], s[j + 1..DigitRun(s, j + 1)]), DigitRun(s, j + 1))
    else
      (Token(s[p..j], ""), j)
  }

  /**
   * A match starting at a digit covers exactly its text: the run of digits,
   * then `.digits` exactly when a point followed by a digit comes next.
   */
  lemma TokenAtMatches(s: string, p: nat)
    requires p < |s| && IsDigit(s[p])
    ensures var (t, e) := TokenAt(s, p); var j := DigitRun(s, p);
      s[p..e] == t.Text() && t.whole == s[p..j] &&
      (t.frac != "" <==> j + 1 < |s| && s[j] == '.' && IsDigit(s[j + 1]))
  {
    var j := DigitRun(s, p);
    if j + 1 < |s| && s[j] == '.' && IsDigit(s[j + 1]) {
      var k := DigitRun(s, j + 1);
      assert s[p..k] == s[p..j] + "." + s[j + 1..k];
    }
  }

  /** Every match is well formed. */
  lemma TokenAtWellFormed(s: string, p: nat)
    requires p < |s| && IsDigit(s[p])
    ensures TokenAt(s, p).0.WellFormed()
  {
  }

  /** `s.match(/(\d+\.\d+|\d+)/)`: the leftmost match, which starts at the first digit. */
  function FirstToken(s: string): Option<Token>
  {
    var p := FindDigit(s, 0);
    if p == |s| then None else Some(TokenAt(s, p).0)
  }

  /** The single match fails exactly when there is no digit, and otherwise starts at the first digit. */
  lemma FirstTokenSpec(s: string)
    ensures FirstToken(s).None? <==> forall k :: 0 <= k < |s| ==> !IsDigit(s[k])
    ensures FirstToken(s).Some? ==>
      exists p :: 0 <= p < |s| && IsDigit(s[p]) && (forall k :: 0 <= k < p ==> !IsDigit(s[k])) &&
        FirstToken(s).value == TokenAt(s, p).0
  {
    var p := FindDigit(s, 0);
    if p < |s| {
      assert IsDigit(s[p]) && FirstToken(s).value == TokenAt(s, p).0;
    }
  }

  /** `s.match(/(\d+\.\d+|\d+)/g)` from index `i` on: every match, left to right. */
  function TokensFrom(s: string, i: nat): seq<Token>
    requires i <= |s|
    decreases |s| - i
  {
    var p := FindDigit(s, i);
    if p == |s| then [] else
      var (t, e) := TokenAt(s, p);
      [t] + TokensFrom(s, e)
  }

  function Tokens(s: string): (r: seq<Token>)
    ensures r == [] <==> FirstToken(s).None?
    ensures r != [] ==> Some(r[0]) == FirstToken(s)
  {
    TokensFrom(s, 0)
  }

  /**
   * `parseFloat(s)`: skip leading white space, then read the longest prefix of
   * the form `[+-] digits [. digits] [(e|E) [+-] digits]` or `[+-] . digits ...`;
   * NaN when there is none.
   */
  function ParseFloat(s: string): (r: Num)
    ensures r.NaN? <==> !HasNumericPrefix(s)
  {
    var i := LeadingWs(s);
    var neg := i < |s| && s[i] == '-';
    var a := if i < |s| && (s[i] == '-' || s[i] == '+') then i + 1 else i;
    var m := Magnitude(s, a);
    if neg then m.Negate() else m
  }

  /** The unsigned number that starts at `a`: digits, then a point and digits, then an exponent. */
  function Magnitude(s: string, a: nat): (r: Num)
    requires a <= |s|
    ensures r.NaN? <==> !((a < |s| && IsDigit(s[a])) || (a + 1 < |s| && s[a] == '.' && IsDigit(s[a + 1])))
  {
    var b := DigitRun(s, a);
    var hasPoint := b < |s| && s[b] == '.';
    var c := if hasPoint then DigitRun(s, b + 1) else b;
    var fracDigits := if hasPoint then s[b + 1..c] else "";
    if b == a && fracDigits == "" then NaN
    else Real(Shift(DecimalValue(s[a..b], fracDigits), Exponent(s, c)))
  }

  /** The character after the optional sign starts a digit, or a point followed by a digit. */
  predicate HasNumericPrefix(s: string)
  {
    var i := LeadingWs(s);
    var a := if i < |s| && (s[i] == '-' || s[i] == '+') then i + 1 else i;
    (a < |s| && IsDigit(s[a])) || (a + 1 < |s| && s[a] == '.' && IsDigit(s[a + 1]))
  }

  /**
   * `parseFloat` reads a matched token, with or without a sign in front, as
   * the token's decimal value.
   */
  lemma ParseFloatToken(t: Token, sign: string)
    requires t.WellFormed()
    requires sign == "" || sign == "-" || sign == "+"
    ensures ParseFloat(sign + t.Text()) == Real(if sign == "-" then -t.Value() else t.Value())
  {
    var s := sign + t.Text();
    assert s[|sign|..] == t.Text();
    assert sign != "" ==> s[0] == sign[0];
    ParseFloatAt(s, |sign|, t);
  }

  lemma {:induction false} ParseFloatAt(s: string, a: nat, t: Token)
    requires t.WellFormed()
    requires a <= 1 && a <= |s| && s[a..] == t.Text()
    requires a == 1 ==> s[0] == '-' || s[0] == '+'
    ensures ParseFloat(s) == Real(if a == 1 && s[0] == '-' then -t.Value() else t.Value())
  {
    assert IsDigit(s[a]) by { assert s[a] == t.whole[0]; }
    assert !IsWs(s[0]);
    assert LeadingWs(s) == 0;
    MagnitudeAt(s, a, t);
  }

  lemma {:induction false} MagnitudeAt(s: string, a: nat, t: Token)
    requires t.WellFormed()
    requires a <= |s| && s[a..] == t.Text()
    ensures Magnitude(s, a) == Real(t.Value())
  {
    ScanToken(s, a, t);
    var b := DigitRun(s, a);
    var hasPoint := b < |s| && s[b] == '.';
    var c := if hasPoint then DigitRun(s, b + 1) else b;
    assert c == |s|;
    var fracDigits := if hasPoint then s[b + 1..c] else "";
    assert fracDigits == t.frac;
    assert Exponent(s, c) == 0;
  }

  /**
   * Where the scan of `parseFloat` stops on a token that starts at `a`:
   * after the whole digits, then after the fraction.
   */
  lemma {:induction false} ScanToken(s: string, a: nat, t: Token)
    requires t.WellFormed()
    requires a <= |s| && s[a..] == t.Text()
    ensures var b := a + |t.whole|;
      b <= |s| && DigitRun(s, a) == b && s[a..b] == t.whole &&
      (b < |s| && s[b] == '.' <==> t.frac != "") &&
      (t.frac != "" ==> DigitRun(s, b + 1) == |s| && s[b + 1..|s|] == t.frac) &&
      (t.frac == "" ==> b == |s|) &&
      Exponent(s, |s|) == 0
  {
    if t.frac == "" {
      ScanWhole(s, a, t.whole);
    } else {
      ScanFraction(s, a, t.whole, t.frac);
    }
  }

  lemma {:induction false} ScanWhole(s: string, a: nat, whole: string)
    requires forall i :: 0 <= i < |whole| ==> IsDigit(whole[i])
    requires a <= |s| && s[a..] == whole
    ensures DigitRun(s, a) == |s| && s[a..|s|] == whole && a + |whole| == |s|
  {
    assert forall k :: a <= k < |s| ==> s[k] == whole[k - a];
    DigitRunEnds(s, a, |s|);
  }

  lemma {:induction false} ScanFraction(s: string, a: nat, whole: string, frac: string)
    requires forall i :: 0 <= i < |whole| ==> IsDigit(whole[i])
    requires forall i :: 0 <= i < |frac| ==> IsDigit(frac[i])
    requires a <= |s| && s[a..] == whole + "." + frac
    ensures var b := a + |whole|;
      b < |s| && s[b] == '.' && DigitRun(s, a) == b && s[a..b] == whole &&
      DigitRun(s, b + 1) == |s| && s[b + 1..|s|] == frac
  {
    var b := a + |whole|;
    var rest := s[a..];
    assert forall k :: a <= k < b ==> s[k] == rest[k - a] == whole[k - a];
    assert s[a..b] == rest[..|whole|] == whole;
    assert s[b] == rest[|whole|] == '.';
    DigitRunEnds(s, a, b);
    assert s[b + 1..] == rest[|whole| + 1..] == frac;
    assert forall k :: b + 1 <= k < |s| ==> s[k] == frac[k - b - 1];
    DigitRunEnds(s, b + 1, |s|);
  }

  /** The power of ten an exponent part starting at `c` contributes; 0 when there is none. */
  function Exponent(s: string, c: nat): (e: int)
    requires c <= |s|
  {
    if c < |s| && (s[c] == 'e' || s[c] == 'E') then
      var d := if c + 1 < |s| && (s[c + 1] == '-' || s[c + 1] == '+') then c + 2 else c + 1;
      if d <= |s| && DigitRun(s, d) > d then
        var n: int := NatValue(s[d..DigitRun(s, d)]);
        if s[c + 1] == '-' then -n else n
      else 0
    else 0
  }
}
