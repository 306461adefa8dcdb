/**
  `parseInt(string, 10)` as section 19.2.5 of ECMA-262 defines it (the
  same function as `Number.parseInt`, section 21.1.2.13), for the product
  price check. NaN is `None`; a number is `Some` of the exact
  mathematical integer the digits denote.
*/
module ParseInt {
  import opened Outcomes

  /** StrWhiteSpaceChar of ECMA-262: WhiteSpace (TAB, VT, FF, ZWNBSP and the
      Unicode "Zs" space separators) or LineTerminator (LF, CR, LS, PS). */
  predicate IsStrWhiteSpace(c: char)
  {
    || c == '\U{0009}' || c == '\U{000B}' || c == '\U{000C}' || c == '\U{FEFF}'
    || c == '\U{0020}' || c == '\U{00A0}' || c == '\U{1680}'
    || ('\U{2000}' <= c <= '\U{200A}')
    || c == '\U{202F}' || c == '\U{205F}' || c == '\U{3000}'
    || c == '\U{000A}' || c == '\U{000D}' || c == '\U{2028}' || c == '\U{2029}'
  }

  predicate IsDecimalDigit(c: char)
  {
    '0' <= c <= '9'
  }

  predicate IsSign(c: char)
  {
    c == '+' || c == '-'
  }

  predicate AllDigits(s: string)
  {
    forall i :: 0 <= i < |s| ==> IsDecimalDigit(s[i])
  }

  /** The first k characters of s are white space. */
  ghost predicate WhiteBefore(s: string, k: int)
  {
    forall i :: 0 <= i < k && i < |s| ==> IsStrWhiteSpace(s[i])
  }

  /** The strings parseInt does not map to NaN: white space, at most one
      sign, then at least one decimal digit (anything may follow). */
  ghost predicate HasIntegerPrefix(s: string)
  {
    exists k :: 0 <= k < |s| && WhiteBefore(s, k) &&
      (IsDecimalDigit(s[k]) || (IsSign(s[k]) && k + 1 < |s| && IsDecimalDigit(s[k + 1])))
  }

  /** Step 2 of the algorithm, TrimString(S, start): drop leading white space. */
  function TrimStart(s: string): string
  {
    if s != [] && IsStrWhiteSpace(s[0]) then TrimStart(s[1..]) else s
  }

  /** What trimming leaves is a suffix that does not start with white
      space, and everything it dropped was white space. */
  lemma {:induction false} TrimStartSpec(s: string)
    ensures var r := TrimStart(s);
            && |r| <= |s| && r == s[|s| - |r|..]
            && (r == [] || !IsStrWhiteSpace(r[0]))
            && WhiteBefore(s, |s| - |r|)
  {
    if s != [] && IsStrWhiteSpace(s[0]) {
      TrimStartSpec(s[1..]);
      var r := TrimStart(s);
      assert s[1..][|s| - 1 - |r|..] == s[|s| - |r|..];
    }
  }

  /** The longest prefix made of radix-10 digits (steps 11 and 12 of the algorithm). */
  function DigitPrefix(s: string): (r: string)
    ensures r <= s && AllDigits(r)
    ensures |r| == |s| || !IsDecimalDigit(s[|r|])
  {
    if s != [] && IsDecimalDigit(s[0]) then [s[0]] + DigitPrefix(s[1..]) else []
  }

  function DigitValue(c: char): nat
    requires IsDecimalDigit(c)
  {
    (c as int) - ('0' as int)
  }

  /** The value of a string of decimal digits, most significant first. */
  function DigitsValue(ds: string): nat
    requires AllDigits(ds)
  {
    if ds == [] then 0 else 10 * DigitsValue(ds[..|ds| - 1]) + DigitValue(ds[|ds| - 1])
  }

  /** Steps 4 and 5 of the algorithm: drop one leading sign. */
  function DropSign(t: string): (u: string)
  {
    if t != [] && IsSign(t[0]) then t[1..] else t
  }

  /** parseInt(s, 10); `None` is NaN. */
  function ParseInt(s: string): Option<int>
  {
    var t := TrimStart(s);
    var negative := t != [] && t[0] == '-';
    var z := DigitPrefix(DropSign(t));
    if z == [] then None
    else if negative then Some(-(DigitsValue(z) as int))
    else Some(DigitsValue(z))
  }

  lemma DigitOrSignIsNotWhite(c: char)
    requires IsDecimalDigit(c) || IsSign(c)
    ensures !IsStrWhiteSpace(c)
  {
  }

  /** Trimming stops at the first character that is not white space. */
  lemma {:induction false} TrimStartAt(s: string, k: nat)
    requires k < |s| && WhiteBefore(s, k) && !IsStrWhiteSpace(s[k])
    ensures TrimStart(s) == s[k..]
  {
    if k > 0 {
      assert IsStrWhiteSpace(s[0]);
      assert WhiteBefore(s[1..], k - 1);
      TrimStartAt(s[1..], k - 1);
      assert s[1..][k - 1..] == s[k..];
    }
  }

  /** parseInt is NaN exactly on the strings outside HasIntegerPrefix. */
  lemma ParseIntNaNIff(s: string)
    ensures ParseInt(s).Some? <==> HasIntegerPrefix(s)
  {
    if DigitPrefix(DropSign(TrimStart(s))) != [] {
      DigitsAfterTrimHaveWitness(s);
    }
    if HasIntegerPrefix(s) {
      var k :| 0 <= k < |s| && WhiteBefore(s, k) &&
        (IsDecimalDigit(s[k]) || (IsSign(s[k]) && k + 1 < |s| && IsDecimalDigit(s[k + 1])));
      WitnessGivesDigits(s, k);
    }
  }

  lemma DigitsAfterTrimHaveWitness(s: string)
    requires DigitPrefix(DropSign(TrimStart(s))) != []
    ensures HasIntegerPrefix(s)
  {
    TrimStartSpec(s);
    var t := TrimStart(s);
    var m := |s| - |t|;
    var u := DropSign(t);
    assert u != [] && IsDecimalDigit(u[0]);
    if t != [] && IsSign(t[0]) {
      assert s[m] == t[0] && s[m + 1] == u[0];
    } else {
      assert s[m] == u[0];
    }
  }

  lemma WitnessGivesDigits(s: string, k: nat)
    requires k < |s| && WhiteBefore(s, k)
    requires IsDecimalDigit(s[k]) || (IsSign(s[k]) && k + 1 < |s| && IsDecimalDigit(s[k + 1]))
    ensures DigitPrefix(DropSign(TrimStart(s))) != []
  {
    DigitOrSignIsNotWhite(s[k]);
    TrimStartAt(s, k);
    var u := DropSign(s[k..]);
    if IsSign(s[k]) {
      assert u == s[k + 1..];
    } else {
      assert u == s[k..];
    }
    assert IsDecimalDigit(u[0]);
  }

  /** The decimal numeral of n, without sign or leading zeros. */
  function Decimal(n: nat): (r: string)
    ensures r != [] && AllDigits(r)
  {
    if n < 10 then [DigitChar(n)] else Decimal(n / 10) + [DigitChar(n % 10)]
  }

  function DigitChar(d: nat): (c: char)
    requires d < 10
    ensures IsDecimalDigit(c) && DigitValue(c) == d
  {
    ('0' as int + d) as char
  }

  lemma {:induction false} DecimalValue(n: nat)
    ensures DigitsValue(Decimal(n)) == n
  {
    if n >= 10 {
      var ds := Decimal(n);
      assert ds[..|ds| - 1] == Decimal(n / 10);
      DecimalValue(n / 10);
    }
  }

  lemma {:induction false} DigitPrefixOfDigits(ds: string, rest: string)
    requires AllDigits(ds)
    requires rest == [] || !IsDecimalDigit(rest[0])
    ensures DigitPrefix(ds + rest) == ds
  {
    if ds != [] {
      assert (ds + rest)[1..] == ds[1..] + rest;
      DigitPrefixOfDigits(ds[1..], rest);
    } else {
      assert ds + rest == rest;
    }
  }

  /** Without white space or sign in front, parseInt reads the leading digits. */
  lemma ParseIntUnsigned(s: string)
    requires s != [] && !IsStrWhiteSpace(s[0]) && !IsSign(s[0])
    ensures ParseInt(s) == if DigitPrefix(s) == [] then None else Some(DigitsValue(DigitPrefix(s)))
  {
    assert TrimStart(s) == s;
  }

  /** A leading minus sign negates what the rest reads as. */
  lemma ParseIntMinus(t: string)
    ensures ParseInt("-" + t) == if DigitPrefix(t) == [] then None else Some(-(DigitsValue(DigitPrefix(t)) as int))
  {
    MinusIsKept(t);
  }

  lemma MinusIsKept(t: string)
    ensures var s := "-" + t;
            s[0] == '-' && TrimStart(s) == s && DropSign(s) == t
  {
    var s := "-" + t;
    assert s[0] == '-' && s[1..] == t;
    DigitOrSignIsNotWhite(s[0]);
  }

  /** parseInt reads digits up to the first non-digit and ignores the rest,
      so a price such as "12.50" or "12abc" passes the check as 12. */
  lemma ParseIntStopsAtNonDigit(ds: string, rest: string)
    requires ds != [] && AllDigits(ds)
    requires rest == [] || !IsDecimalDigit(rest[0])
    ensures ParseInt(ds + rest) == Some(DigitsValue(ds))
  {
    var s := ds + rest;
    DigitOrSignIsNotWhite(s[0]);
    ParseIntUnsigned(s);
    DigitPrefixOfDigits(ds, rest);
  }

  /** A leading minus sign negates the value. */
  lemma ParseIntNegative(ds: string, rest: string)
    requires ds != [] && AllDigits(ds)
    requires rest == [] || !IsDecimalDigit(rest[0])
    ensures ParseInt("-" + (ds + rest)) == Some(-(DigitsValue(ds) as int))
  {
    var t := ds + rest;
    ParseIntMinus(t);
    DigitPrefixOfDigits(ds, rest);
    assert DigitPrefix(t) == ds;
  }

  /** Round trip: parseInt of a decimal numeral gives back its value. */
  lemma ParseIntDecimal(n: nat)
    ensures ParseInt(Decimal(n)) == Some(n)
  {
    ParseIntStopsAtNonDigit(Decimal(n), []);
    assert Decimal(n) + [] == Decimal(n);
    DecimalValue(n);
  }

  /** A string that starts with neither white space, a sign nor a digit is NaN. */
  lemma ParseIntNaN(s: string)
    requires s == [] || (!IsStrWhiteSpace(s[0]) && !IsSign(s[0]) && !IsDecimalDigit(s[0]))
    ensures ParseInt(s) == None
  {
    assert TrimStart(s) == s;
  }
}
