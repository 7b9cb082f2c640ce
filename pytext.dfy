/**
 * The two ways the engine reads numbers out of strings: Python's `float(s)`
 * on the decimal text the input panel lets through, and the Miller-index
 * tokens `re.findall(r"-*[0-9]", face)` each passed to `int`.
 */
module PyText {
  import opened Common

  function Pow10(n: nat): (r: nat)
    ensures r >= 1
  {
    if n == 0 then 1 else 10 * Pow10(n - 1)
  }

  predicate AllDigits(s: string)
  {
    forall i :: 0 <= i < |s| ==> IsDigit(s[i])
  }

  /** Value of a run of decimal digits. */
  function DigitsValue(s: string): nat
    requires AllDigits(s)
  {
    if s == [] then 0 else 10 * DigitsValue(s[..|s| - 1]) + DigitValue(s[|s| - 1])
  }

  /** `s` without leading and trailing whitespace (`str.strip()`). */
  function Strip(s: string): (r: string)
    ensures |r| <= |s|
    ensures r != [] ==> !IsSpace(r[0]) && !IsSpace(r[|r| - 1])
    decreases |s|
  {
    if s == [] then []
    else if IsSpace(s[0]) then Strip(s[1..])
    else if IsSpace(s[|s| - 1]) then Strip(s[..|s| - 1])
    else s
  }

  /** Position of the first '.' in `s`, or |s|. */
  function DotAt(s: string): (k: nat)
    ensures k <= |s|
    ensures forall i :: 0 <= i < k ==> s[i] != '.'
    ensures k < |s| ==> s[k] == '.'
  {
    if s == [] then 0 else if s[0] == '.' then 0 else 1 + DotAt(s[1..])
  }

  /**
   * Unsigned decimal `digits [. digits]` or `. digits`, with at least one digit:
   * the value is int + frac / 10^|frac|.
   */
  function ParseUnsigned(s: string): (r: Option<real>)
    ensures r.Some? ==> r.value >= 0.0
  {
    var k := DotAt(s);
    var whole := s[..k];
    var frac := if k < |s| then s[k + 1..] else [];
    if AllDigits(whole) && AllDigits(frac) && |whole| + |frac| > 0 then
      Some(DigitsValue(whole) as real + DigitsValue(frac) as real / Pow10(|frac|) as real)
    else None
  }

  /**
   * Python's `float(s)` on the strings the panel's validators admit (signs,
   * digits and dots): optional surrounding whitespace, an optional sign, then a
   * decimal. `None` stands for the ValueError Python raises.
   */
  function ParseReal(s: string): (r: Option<real>)
  {
    var t := Strip(s);
    if t == [] then None
    else if t[0] == '-' then
      match ParseUnsigned(t[1..]) { case Some(v) => Some(-v) case None => None }
    else if t[0] == '+' then ParseUnsigned(t[1..])
    else ParseUnsigned(t)
  }

  lemma {:induction false} DigitsOfIntText(n: nat)
    ensures AllDigits(IntText(n)) && |IntText(n)| > 0
    ensures DigitsValue(IntText(n)) == n
  {
    if n >= 10 {
      DigitsOfIntText(n / 10);
      var s := IntText(n);
      assert s[..|s| - 1] == IntText(n / 10);
    }
  }

  lemma NoDotInDigits(s: string)
    requires AllDigits(s)
    ensures DotAt(s) == |s|
  {
    if DotAt(s) < |s| {
      assert IsDigit(s[DotAt(s)]);
    }
  }

  lemma ParseUnsignedOfIntText(m: nat)
    ensures ParseUnsigned(IntText(m)) == Some(m as real)
  {
    var t := IntText(m);
    DigitsOfIntText(m);
    NoDotInDigits(t);
    assert t[..|t|] == t;
    assert DigitsValue([]) == 0;
  }

  lemma StripNoBlanks(t: string)
    requires t != [] && !IsSpace(t[0]) && !IsSpace(t[|t| - 1])
    ensures Strip(t) == t
  {
  }

  lemma IntTextEnds(m: nat)
    ensures IntText(m) != [] && IsDigit(IntText(m)[0]) && IsDigit(IntText(m)[|IntText(m)| - 1])
  {
    DigitsOfIntText(m);
  }

  /** `float(str(n))` gives back n for every integer n. */
  lemma ParseRealOfIntText(n: int)
    ensures ParseReal(IntText(n)) == Some(n as real)
  {
    if n < 0 {
      ParseRealOfNegativeText(n);
    } else {
      ParseRealOfNatText(n);
    }
  }

  /** The text of a natural number is its own stripped, unsigned decimal. */
  lemma ParseRealOfNatText(m: nat)
    ensures ParseReal(IntText(m)) == Some(m as real)
  {
    var t := IntText(m);
    ParseUnsignedOfIntText(m);
    IntTextEnds(m);
    StripNoBlanks(t);
  }

  /** The text of a negative k is a dash before the text of -k. */
  lemma ParseRealOfNegativeText(k: int)
    requires k < 0
    ensures ParseReal(IntText(k)) == Some(k as real)
  {
    var m: nat := -k;
    var u := IntText(m);
    var t := IntText(k);
    assert t == "-" + u;
    ParseUnsignedOfIntText(m);
    IntTextEnds(m);
    assert t[1..] == u;
    assert t[|t| - 1] == u[|u| - 1];
    StripNoBlanks(t);
  }

  /** Two dots make `float` fail although every character is one the panel allows. */
  lemma TwoDotsRejected()
    ensures ParseReal("1.2.3") == None
  {
    assert Strip("1.2.3") == "1.2.3";
    assert DotAt("1.2.3") == 1 by { assert "1.2.3"[1..] == ".2.3"; }
    assert "1.2.3"[2..] == "2.3";
    assert !IsDigit("2.3"[1]);
  }

  /** A doubled sign, or a sign or dot alone, raises ValueError. */
  lemma SignsAloneRejected()
    ensures ParseReal("--1") == None
    ensures ParseReal("-") == None
    ensures ParseReal(".") == None
  {
    assert Strip("--1") == "--1";
    assert "--1"[1..] == "-1";
    assert DotAt("-1") == 2 by { assert "-1"[1..] == "1"; assert "1"[1..] == []; }
    assert !IsDigit("-1"[0]);
    assert Strip("-") == "-";
    assert "-"[1..] == "";
    assert Strip(".") == ".";
    assert "."[1..] == [] && "."[..0] == [];
  }

  /** Surrounding blanks are ignored and the fraction is read exactly. */
  lemma BlanksAndFraction()
    ensures ParseReal(" 2.5 ") == Some(2.5)
  {
    StripPadded();
    FractionRead();
  }

  lemma StripPadded()
    ensures Strip(" 2.5 ") == "2.5"
  {
    assert IsSpace(" 2.5 "[0]);
    assert " 2.5 "[1..] == "2.5 ";
    assert IsSpace("2.5 "[3]);
    assert "2.5 "[..3] == "2.5";
  }

  lemma FractionRead()
    ensures ParseUnsigned("2.5") == Some(2.5)
  {
    assert DotAt("2.5") == 1 by { assert "2.5"[1..] == ".5"; }
    assert "2.5"[..1] == "2" && "2.5"[2..] == "5";
    assert DigitsValue("2") == 2 by { assert "2"[..0] == []; }
    assert DigitsValue("5") == 5 by { assert "5"[..0] == []; }
  }

  // ------------------------------------------------------ -*[0-9] tokens

  /** Length of the run of '-' at the start of `s`. */
  function DashRun(s: string): (k: nat)
    ensures k <= |s|
    ensures forall i :: 0 <= i < k ==> s[i] == '-'
    ensures k < |s| ==> s[k] != '-'
  {
    if s != [] && s[0] == '-' then 1 + DashRun(s[1..]) else 0
  }

  /**
   * `re.findall(r"-*[0-9]", s)`: scanning from the left, a match is a run of
   * dashes followed by a digit; where none starts, the scan moves on by one
   * character.
   */
  function Tokens(s: string): (r: seq<string>)
    ensures forall t :: t in r ==> IsToken(t)
    decreases |s|
  {
    if s == [] then []
    else
      var k := DashRun(s);
      if k < |s| && IsDigit(s[k]) then
        assert DashRun(s[..k + 1]) == k by { DashRunPrefix(s, k); }
        [s[..k + 1]] + Tokens(s[k + 1..])
      else Tokens(s[1..])
  }

  lemma {:induction false} DashRunPrefix(s: string, k: nat)
    requires k < |s| && k == DashRun(s) && IsDigit(s[k])
    ensures DashRun(s[..k + 1]) == k
    decreases k
  {
    if k > 0 {
      assert s[..k + 1][1..] == s[1..][..k];
      DashRunPrefix(s[1..], k - 1);
    }
  }

  function CountDigits(s: string): nat
  {
    if s == [] then 0 else (if IsDigit(s[0]) then 1 else 0) + CountDigits(s[1..])
  }

  lemma {:induction false} NoDigitsInDashes(s: string, k: nat)
    requires k <= |s| && forall i :: 0 <= i < k ==> s[i] == '-'
    ensures CountDigits(s[..k]) == 0
  {
    if k > 0 {
      assert s[..k][1..] == s[1..][..k - 1];
      NoDigitsInDashes(s[1..], k - 1);
    }
  }

  lemma {:induction false} CountDigitsAppend(s: string, t: string)
    ensures CountDigits(s + t) == CountDigits(s) + CountDigits(t)
  {
    if s == [] {
      assert s + t == t;
    } else {
      assert (s + t)[1..] == s[1..] + t;
      CountDigitsAppend(s[1..], t);
    }
  }

  /** Every digit ends exactly one token, so the index has as many tokens as digits. */
  lemma {:induction false} TokensCountDigits(s: string)
    ensures |Tokens(s)| == CountDigits(s)
    decreases |s|
  {
    if s != [] {
      var k := DashRun(s);
      if k < |s| && IsDigit(s[k]) {
        TokensCountDigits(s[k + 1..]);
        assert s == s[..k] + [s[k]] + s[k + 1..];
        CountDigitsAppend(s[..k] + [s[k]], s[k + 1..]);
        CountDigitsAppend(s[..k], [s[k]]);
        NoDigitsInDashes(s, k);
      } else {
        TokensCountDigits(s[1..]);
      }
    }
  }

  /** Python's `int(token)`: "7" and "-7" convert, two or more dashes raise ValueError. */
  function IntOfToken(t: string): (r: Option<int>)
    requires IsToken(t)
    ensures r.Some? <==> |t| <= 2
    ensures r.Some? ==> -9 <= r.value <= 9
  {
    var d: int := DigitValue(t[|t| - 1]);
    if |t| == 1 then Some(d) else if |t| == 2 then Some(-d) else None
  }

  /** `[int(s) for s in re.findall(r"-*[0-9]", face)]`; `None` is the ValueError. */
  function MillerTokens(face: string): (r: Option<seq<int>>)
    ensures r.Some? ==> |r.value| == CountDigits(face)
  {
    TokensCountDigits(face);
    IntsOfTokens(Tokens(face))
  }

  predicate IsToken(t: string)
  {
    |t| >= 1 && IsDigit(t[|t| - 1]) && DashRun(t) == |t| - 1
  }

  function IntsOfTokens(ts: seq<string>): (r: Option<seq<int>>)
    requires forall t :: t in ts ==> IsToken(t)
    ensures r.Some? ==> |r.value| == |ts|
  {
    if ts == [] then Some([])
    else
      var head := IntOfToken(ts[0]);
      var rest := IntsOfTokens(ts[1..]);
      if head.Some? && rest.Some? then Some([head.value] + rest.value) else None
  }

  /** The list comprehension raises exactly when some token carries two or more dashes. */
  lemma {:induction false} IntsOfTokensFail(ts: seq<string>)
    requires forall t :: t in ts ==> IsToken(t)
    ensures IntsOfTokens(ts).None? <==> exists i :: 0 <= i < |ts| && |ts[i]| > 2
  {
    if ts != [] {
      IntsOfTokensFail(ts[1..]);
      if exists i :: 0 <= i < |ts[1..]| && |ts[1..][i]| > 2 {
        var i :| 0 <= i < |ts[1..]| && |ts[1..][i]| > 2;
        assert |ts[i + 1]| > 2;
      }
      if exists i :: 0 <= i < |ts| && |ts[i]| > 2 {
        var i :| 0 <= i < |ts| && |ts[i]| > 2;
        if i > 0 { assert |ts[1..][i - 1]| > 2; }
      }
    }
  }

  lemma IntsOfTokensCons(t: string, rest: seq<string>)
    requires IsToken(t) && forall u :: u in rest ==> IsToken(u)
    ensures IntsOfTokens([t] + rest) ==
      if IntOfToken(t).Some? && IntsOfTokens(rest).Some?
      then Some([IntOfToken(t).value] + IntsOfTokens(rest).value) else None
  {
    assert ([t] + rest)[1..] == rest;
  }

  lemma TokensDigitFirst(c: char, rest: string)
    requires IsDigit(c)
    ensures Tokens([c] + rest) == [[c]] + Tokens(rest)
  {
    var s := [c] + rest;
    assert DashRun(s) == 0;
    assert s[..1] == [c] && s[1..] == rest;
  }

  /** `int` applied to three tokens of at most one dash each gives their three values, in order. */
  lemma IntsOfThree(t1: string, t2: string, t3: string)
    requires IsToken(t1) && IsToken(t2) && IsToken(t3) && |t1| <= 2 && |t2| <= 2 && |t3| <= 2
    ensures IntsOfTokens([t1, t2, t3]) == Some([IntOfToken(t1).value, IntOfToken(t2).value, IntOfToken(t3).value])
  {
    var v1, v2, v3 := IntOfToken(t1).value, IntOfToken(t2).value, IntOfToken(t3).value;
    var none: seq<string> := [];
    IntsOfTokensCons(t3, none);
    assert IntsOfTokens(none) == Some([]);
    assert [t3] + none == [t3];
    assert [v3] + IntsOfTokens(none).value == [v3];
    IntsOfTokensCons(t2, [t3]);
    assert [t2] + [t3] == [t2, t3];
    assert [v2] + [v3] == [v2, v3];
    IntsOfTokensCons(t1, [t2, t3]);
    assert [t1] + [t2, t3] == [t1, t2, t3];
    assert [v1] + [v2, v3] == [v1, v2, v3];
  }

  /** A dash and a digit form one token. */
  lemma TokensDashDigit(b: char, rest: string)
    requires IsDigit(b)
    ensures Tokens(['-', b] + rest) == [['-', b]] + Tokens(rest)
  {
    var s := ['-', b] + rest;
    assert s[1..] == [b] + rest;
    assert DashRun(s) == 1;
    assert s[..2] == ['-', b] && s[2..] == rest;
  }

  /** Two dashes and a digit form one token. */
  lemma TokensDashDashDigit(b: char, rest: string)
    requires IsDigit(b)
    ensures Tokens(['-', '-', b] + rest) == [['-', '-', b]] + Tokens(rest)
  {
    var s := ['-', '-', b] + rest;
    assert s[1..] == ['-', b] + rest;
    assert s[1..][1..] == [b] + rest;
    assert DashRun([b] + rest) == 0;
    assert DashRun(s[1..]) == 1;
    assert DashRun(s) == 2;
    assert s[..3] == ['-', '-', b] && s[3..] == rest;
  }

  lemma TokensPlain(a: char, b: char, c: char)
    requires IsDigit(a) && IsDigit(b) && IsDigit(c)
    ensures Tokens([a, b, c]) == [[a], [b], [c]]
  {
    TokensDigitFirst(c, []);
    TokensDigitFirst(b, [c]);
    TokensDigitFirst(a, [b, c]);
    assert [a, b, c] == [a] + [b, c] && [b, c] == [b] + [c] && [c] == [c] + [];
  }

  /** A face of three digits gives the three digit values. */
  lemma MillerPlain(a: char, b: char, c: char)
    requires IsDigit(a) && IsDigit(b) && IsDigit(c)
    ensures MillerTokens([a, b, c]) == Some([DigitValue(a), DigitValue(b), DigitValue(c)])
  {
    TokensPlain(a, b, c);
    IntsOfThree([a], [b], [c]);
  }

  lemma TokensNegative(a: char, b: char, c: char)
    requires IsDigit(a) && IsDigit(b) && IsDigit(c)
    ensures Tokens([a, '-', b, c]) == [[a], ['-', b], [c]]
  {
    TokensDigitFirst(c, []);
    assert [c] + [] == [c];
    TokensDashDigit(b, [c]);
    assert ['-', b] + [c] == ['-', b, c];
    TokensDigitFirst(a, ['-', b, c]);
    assert [a] + ['-', b, c] == [a, '-', b, c];
  }

  /** One dash before a digit negates it: "1-10" reads as (1, -1, 0). */
  lemma MillerNegative(a: char, b: char, c: char)
    requires IsDigit(a) && IsDigit(b) && IsDigit(c)
    ensures MillerTokens([a, '-', b, c]) == Some([DigitValue(a), -(DigitValue(b) as int), DigitValue(c)])
  {
    TokensNegative(a, b, c);
    IntsOfThree([a], ['-', b], [c]);
  }

  lemma TokensDoubleDash(a: char, b: char, c: char)
    requires IsDigit(a) && IsDigit(b) && IsDigit(c)
    ensures Tokens([a, '-', '-', b, c]) == [[a], ['-', '-', b], [c]]
  {
    TokensDigitFirst(c, []);
    assert [c] + [] == [c];
    TokensDashDashDigit(b, [c]);
    assert ['-', '-', b] + [c] == ['-', '-', b, c];
    TokensDigitFirst(a, ['-', '-', b, c]);
    assert [a] + ['-', '-', b, c] == [a, '-', '-', b, c];
  }

  /** Two dashes before a digit make `int` raise ValueError: "1--10" is refused. */
  lemma MillerDoubleDash(a: char, b: char, c: char)
    requires IsDigit(a) && IsDigit(b) && IsDigit(c)
    ensures MillerTokens([a, '-', '-', b, c]) == None
  {
    TokensDoubleDash(a, b, c);
    var ts := Tokens([a, '-', '-', b, c]);
    IntsOfTokensFail(ts);
    assert |ts[1]| > 2;
  }
}
