/**
  * The number entry's text: the keystroke filter built on Python's
  * `float()`, `str()` of an integer, and `eval` of the entry's text.
  * Both `float()` and `eval` are modelled on decimal literals only: an
  * optional sign, digits and at most one decimal point.
  */
module Numbers {

  predicate IsDigit(c: char)
  {
    '0' <= c <= '9'
  }

  predicate AllDigits(s: string)
  {
    forall i | 0 <= i < |s| :: IsDigit(s[i])
  }

  predicate AllZeros(s: string)
  {
    forall i | 0 <= i < |s| :: s[i] == '0'
  }

  /** The text after an optional leading `+` or `-`. */
  function Unsigned(t: string): (u: string)
    ensures |u| <= |t| && u == t[|t| - |u|..]
    ensures |u| == |t| || (|u| == |t| - 1 && (t[0] == '+' || t[0] == '-'))
  {
    if |t| > 0 && (t[0] == '+' || t[0] == '-') then t[1..] else t
  }

  /** Index of the first `.` in `s`, or `|s|` when there is none. */
  function FirstDot(s: string): (i: nat)
    ensures i <= |s|
    ensures '.' !in s[..i]
    ensures i < |s| ==> s[i] == '.'
  {
    if s == [] then 0
    else if s[0] == '.' then 0
    else
      var j := FirstDot(s[1..]);
      assert s[..j + 1] == [s[0]] + s[1..][..j];
      j + 1
  }

  /** The characters of a number text: digits and points, after an optional sign. */
  predicate NumberChars(t: string)
  {
    forall i | 0 <= i < |t| :: IsDigit(t[i]) || t[i] == '.' || (i == 0 && (t[i] == '+' || t[i] == '-'))
  }

  /**
    * Python's `float(t)` succeeds: digits with at most one decimal point and
    * at least one digit, after an optional sign.
    */
  predicate FloatAccepts(t: string): (r: bool)
    ensures r ==> t != [] && NumberChars(t)
    ensures t != [] && AllDigits(t) ==> r
  {
    var u := Unsigned(t);
    var d := FirstDot(u);
    var r := && AllDigits(u[..d])
             && (d == |u| || AllDigits(u[d + 1..]))
             && (d > 0 || |u| > d + 1);
    assert r ==> NumberChars(t) by {
      if r {
        AcceptedChars(t, u, d);
      }
    }
    assert t != [] && AllDigits(t) ==> r by {
      if t != [] && AllDigits(t) {
        DigitsAccepted(t);
      }
    }
    r
  }

  /** What the accepted shape allows at each position of the text. */
  lemma AcceptedChars(t: string, u: string, d: nat)
    requires u == Unsigned(t) && d == FirstDot(u)
    requires AllDigits(u[..d]) && (d == |u| || AllDigits(u[d + 1..]))
    ensures NumberChars(t)
  {
    var off := |t| - |u|;
    forall i | 0 <= i < |t| ensures IsDigit(t[i]) || t[i] == '.' || (i == 0 && (t[i] == '+' || t[i] == '-')) {
      if i >= off {
        var j := i - off;
        assert u[j] == t[i];
        if j < d {
          assert u[..d][j] == u[j];
        } else if j > d {
          assert u[d + 1..][j - d - 1] == u[j];
        }
      }
    }
  }

  /** A non-empty digit string has no sign and no point. */
  lemma DigitsAccepted(t: string)
    requires t != [] && AllDigits(t)
    ensures Unsigned(t) == t && FirstDot(t) == |t| && t[..FirstDot(t)] == t
  {
    assert forall k | 0 <= k < |t| :: t[k] != '.';
    FirstDotFinds(t);
  }

  /**
    * `validate_number_input`: the proposed entry text is empty or a number.
    * Every digit string passes, and whatever passes holds only digits,
    * points and a leading sign.
    */
  predicate ValidateNumberInput(t: string): (r: bool)
    ensures r ==> NumberChars(t)
    ensures AllDigits(t) ==> r
  {
    t == "" || FloatAccepts(t)
  }

  /** The value of a string of decimal digits. */
  function DigitsValue(s: string): (n: nat)
    requires AllDigits(s)
  {
    if s == [] then 0
    else DigitsValue(s[..|s| - 1]) * 10 + (s[|s| - 1] as int - '0' as int)
  }

  /**
    * Python 3's decimal integer literal with an optional unary sign: no
    * leading zero unless every digit is zero (`007` is a syntax error).
    */
  predicate IsIntLiteral(t: string)
  {
    var u := Unsigned(t);
    |u| > 0 && AllDigits(u) && (u[0] != '0' || AllZeros(u))
  }

  function IntLiteralValue(t: string): int
    requires IsIntLiteral(t)
  {
    var n: int := DigitsValue(Unsigned(t));
    if |t| > 0 && t[0] == '-' then -n else n
  }

  /** A sign is not a point: the text has a point exactly when its unsigned part has one. */
  lemma SignKeepsPoints(t: string)
    ensures '.' in t <==> '.' in Unsigned(t)
  {
    if |t| > 0 && (t[0] == '+' || t[0] == '-') {
      assert t == [t[0]] + Unsigned(t);
    }
  }

  /** `FirstDot` stops inside the text exactly when the text has a point. */
  lemma FirstDotFinds(s: string)
    ensures FirstDot(s) < |s| <==> '.' in s
  {
    if FirstDot(s) == |s| {
      assert s[..FirstDot(s)] == s;
    }
  }

  /** One character that is not a digit spoils a digit string. */
  lemma NotAllDigits(s: string, k: nat)
    requires k < |s| && !IsDigit(s[k])
    ensures !AllDigits(s)
  {
  }

  /** What `eval` makes of an entry's text: an int, a float, or an exception. */
  datatype Evaluated = EvInt(n: int) | EvFloat(lit: string) | Raises

  /**
    * `eval(t)` for a text the filter lets into the entry. A text with a
    * decimal point is a float literal; an empty text or an integer with a
    * leading zero raises.
    */
  function EvalNumber(t: string): (e: Evaluated)
    requires ValidateNumberInput(t)
    ensures e.Raises? <==> t == "" || ('.' !in t && !IsIntLiteral(t))
    ensures e.EvInt? ==> IsIntLiteral(t) && e.n == IntLiteralValue(t)
    ensures e.EvFloat? ==> e.lit == t && '.' in t
  {
    if t == "" then Raises
    else
      var u := Unsigned(t);
      SignKeepsPoints(t);
      FirstDotFinds(u);
      if FirstDot(u) < |u| then EvFloat(t)
      else if IsIntLiteral(t) then EvInt(IntLiteralValue(t))
      else Raises
  }

  function DigitChar(d: nat): (c: char)
    requires d < 10
    ensures IsDigit(c) && c as int - '0' as int == d
  {
    ('0' as int + d) as char
  }

  /** `str(n)` for a non-negative integer: its decimal digits, without leading zeros. */
  function NatToText(n: nat): (s: string)
    ensures |s| > 0 && AllDigits(s)
    ensures s[0] != '0' || n == 0
  {
    if n < 10 then [DigitChar(n)]
    else NatToText(n / 10) + [DigitChar(n % 10)]
  }

  /**
    * `str(n)` for an integer: a minus sign exactly for a negative number,
    * never a plus, then the decimal digits of its magnitude without leading
    * zeros; so it is an integer literal whose value is `n`.
    */
  function IntToText(n: int): (r: string)
    ensures r != [] && (r[0] == '-' <==> n < 0)
    ensures r[0] == '-' || IsDigit(r[0])
    ensures AllDigits(Unsigned(r)) && DigitsValue(Unsigned(r)) == if n < 0 then -n else n
    ensures Unsigned(r) != [] && (Unsigned(r)[0] != '0' || Unsigned(r) == "0")
    ensures IsIntLiteral(r) && IntLiteralValue(r) == n
  {
    var m := if n < 0 then -n else n;
    NatTextValue(m);
    var r := if n < 0 then "-" + NatToText(m) else NatToText(m);
    assert Unsigned(r) == NatToText(m);
    assert m == 0 ==> NatToText(m) == "0";
    r
  }

  lemma {:induction false} NatTextValue(n: nat)
    ensures DigitsValue(NatToText(n)) == n
  {
    if n >= 10 {
      var s := NatToText(n);
      NatTextValue(n / 10);
      assert s[..|s| - 1] == NatToText(n / 10);
    }
  }

  /**
    * Seeding a number entry sets its text to `str(n)` and tracks `eval` of
    * that text: the filter admits it and the value comes back unchanged.
    */
  lemma IntTextRoundTrip(n: int)
    ensures ValidateNumberInput(IntToText(n))
    ensures EvalNumber(IntToText(n)) == EvInt(n)
  {
    var u := Unsigned(IntToText(n));
    DigitsAccepted(u);
    FirstDotFinds(u);
  }

  /** The filter refuses any non-empty text without a digit, such as `-`, `+`, `.` or `-.`. */
  lemma FilterNeedsDigit(t: string)
    requires t != [] && forall i | 0 <= i < |t| :: !IsDigit(t[i])
    ensures !ValidateNumberInput(t)
  {
    var u := Unsigned(t);
    var off := |t| - |u|;
    var d := FirstDot(u);
    if d > 0 {
      assert u[0] == t[off];
      NotAllDigits(u[..d], 0);
    } else if |u| > 1 {
      assert u[1] == t[off + 1];
      NotAllDigits(u[d + 1..], 0);
    }
  }

  /** No `.` comes before position `k` when `s[k]` is one. */
  lemma {:induction false} FirstDotAtMost(s: string, k: nat)
    requires k < |s| && s[k] == '.'
    ensures FirstDot(s) <= k
  {
    if s[0] != '.' {
      FirstDotAtMost(s[1..], k - 1);
    }
  }

  /** The filter refuses a text with two decimal points, such as `1.2.3`. */
  lemma FilterRejectsTwoPoints(t: string, i: nat, j: nat)
    requires i < j < |t| && t[i] == '.' && t[j] == '.'
    ensures !ValidateNumberInput(t)
  {
    var u := Unsigned(t);
    var off := |t| - |u|;
    assert i >= off;
    assert u[i - off] == t[i] && u[j - off] == t[j];
    FirstDotAtMost(u, i - off);
    var d := FirstDot(u);
    NotAllDigits(u[d + 1..], j - off - d - 1);
  }

  /**
    * Every decimal literal with a point passes the filter: an optional sign,
    * digits, a point and digits, with at least one digit in all (`12.`,
    * `12.5`, `.5`, `-3.5`), and `eval` reads it as a float.
    */
  lemma DecimalAccepted(sign: string, a: string, b: string)
    requires sign == "" || sign == "-" || sign == "+"
    requires AllDigits(a) && AllDigits(b) && |a| + |b| >= 1
    ensures FloatAccepts(sign + a + "." + b) && ValidateNumberInput(sign + a + "." + b)
    ensures EvalNumber(sign + a + "." + b) == EvFloat(sign + a + "." + b)
  {
    DecimalParts(sign, a, b, sign + a + "." + b, a + "." + b);
    PointLiteralAccepted(sign + a + "." + b, a + "." + b, |a|);
  }

  /** The pieces `FloatAccepts` looks at in `t == sign + u` with `u == a + "." + b`. */
  lemma DecimalParts(sign: string, a: string, b: string, t: string, u: string)
    requires sign == "" || sign == "-" || sign == "+"
    requires AllDigits(a) && AllDigits(b) && |a| + |b| >= 1
    requires u == a + "." + b && t == sign + a + "." + b
    ensures u == Unsigned(t) && |a| == FirstDot(u) && |a| < |u|
    ensures AllDigits(u[..|a|]) && AllDigits(u[|a| + 1..]) && (|a| > 0 || |u| > |a| + 1)
  {
    assert t == sign + u;
    assert u[0] == if |a| > 0 then a[0] else '.';
    UnsignedAfterSign(sign, u);
    PointAfterDigits(a, b);
  }

  /** A text whose unsigned part has digits, its first point at `d`, and digits after it, is a float. */
  lemma PointLiteralAccepted(t: string, u: string, d: nat)
    requires u == Unsigned(t) && d == FirstDot(u) && d < |u|
    requires AllDigits(u[..d]) && AllDigits(u[d + 1..]) && (d > 0 || |u| > d + 1)
    ensures FloatAccepts(t) && ValidateNumberInput(t) && EvalNumber(t) == EvFloat(t)
  {
  }

  /** A sign, or none, in front of a text that starts with a digit or a point is what `Unsigned` strips. */
  lemma UnsignedAfterSign(sign: string, u: string)
    requires sign == "" || sign == "-" || sign == "+"
    requires u != [] && (IsDigit(u[0]) || u[0] == '.')
    ensures Unsigned(sign + u) == u
  {
    if sign == "" {
      assert sign + u == u;
    } else {
      assert (sign + u)[1..] == u;
    }
  }

  /** In `a + "." + b` with `a` all digits, the first point is the one after `a`. */
  lemma PointAfterDigits(a: string, b: string)
    requires AllDigits(a)
    ensures FirstDot(a + "." + b) == |a|
    ensures (a + "." + b)[..|a|] == a && (a + "." + b)[|a| + 1..] == b
  {
    var u := a + "." + b;
    assert u[|a|] == '.';
    FirstDotAtMost(u, |a|);
    assert u[..|a|] == a;
    FirstDotPastDigits(u, |a|);
    assert u[|a| + 1..] == b;
  }

  /** No point comes before `k` when the first `k` characters are digits. */
  lemma {:induction false} FirstDotPastDigits(s: string, k: nat)
    requires k <= |s| && AllDigits(s[..k])
    ensures FirstDot(s) >= k
  {
    if k > 0 {
      assert s[0] == s[..k][0];
      assert s[1..][..k - 1] == s[..k][1..];
      FirstDotPastDigits(s[1..], k - 1);
    }
  }

  /** A digit string with a leading zero, such as `007`, passes the filter, yet `eval` raises on it. */
  lemma LeadingZeroRaises(t: string)
    requires |t| >= 2 && AllDigits(t) && t[0] == '0' && !AllZeros(t)
    ensures ValidateNumberInput(t) && EvalNumber(t) == Raises
  {
    assert Unsigned(t) == t;
    assert forall k | 0 <= k < |t| :: t[k] != '.';
    FirstDotFinds(t);
    assert t[..|t|] == t;
  }
}
