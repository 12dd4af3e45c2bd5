/** The checks the order and settings wizards apply to typed text: the
    price cleaning, JavaScript's `Number()` conversion, the DDMMYYYY date
    rewrite, the image-link prefix check, the settings e-mail pattern and
    the taxes and quantity checks. */
module Validators {
  import opened Common

  /** A JavaScript number, with exact arithmetic in place of IEEE doubles. */
  datatype JsNum = Num(v: real) | NaN | PosInf | NegInf

  // ----- digit strings -----

  /** The value of a digit in bases up to 36 (`0-9`, then `a-z` or `A-Z`), or -1. */
  function DigitWeight(c: char): (d: int)
    ensures -1 <= d < 36
    ensures IsDigit(c) <==> 0 <= d < 10
  {
    if IsDigit(c) then c as int - '0' as int
    else if IsLowerAscii(c) then c as int - 'a' as int + 10
    else if IsUpperAscii(c) then c as int - 'A' as int + 10
    else -1
  }

  /** Every character of `s` is a digit of the base. */
  predicate Digits(s: string, radix: nat)
  {
    forall c :: c in s ==> 0 <= DigitWeight(c) < radix
  }

  function Pow(b: nat, e: nat): (r: nat)
    ensures b >= 1 ==> r >= 1
  {
    if e == 0 then 1 else b * Pow(b, e - 1)
  }

  /** The value of a digit string in the base, most significant digit first. */
  function Value(s: string, radix: nat): (n: nat)
    requires Digits(s, radix)
  {
    if s == [] then 0
    else radix * Value(s[..|s| - 1], radix) + DigitWeight(s[|s| - 1])
  }

  /** `String(n)` for a natural number: its decimal digits without leading zeros. */
  function DecimalString(n: nat): (s: string)
    ensures s != [] && Digits(s, 10)
  {
    if n < 10 then [('0' as int + n) as char]
    else DecimalString(n / 10) + [('0' as int + n % 10) as char]
  }

  /** Reading back the digits of a number gives the number. */
  lemma {:induction false} ValueOfDecimalString(n: nat)
    ensures Value(DecimalString(n), 10) == n
  {
    if n >= 10 {
      var s := DecimalString(n);
      assert s[..|s| - 1] == DecimalString(n / 10);
      ValueOfDecimalString(n / 10);
    }
  }

  // ----- Number() -----

  predicate IsDot(c: char) { c == '.' }

  predicate IsComma(c: char) { c == ',' }

  predicate IsExponentMark(c: char) { c == 'e' || c == 'E' }

  predicate IsAt(c: char) { c == '@' }

  /** `whole.frac`, where either part may be empty but not both. */
  function PointValue(whole: string, frac: string): Option<real>
  {
    if Digits(whole, 10) && Digits(frac, 10) && (whole != "" || frac != "") then
      Some(Value(whole, 10) as real + Value(frac, 10) as real / Pow(10, |frac|) as real)
    else None
  }

  /** `digits`, `digits.`, `digits.digits` or `.digits`: the part of a decimal
      literal before any exponent. */
  function Mantissa(m: string): Option<real>
  {
    match FirstIndex(m, IsDot)
    case None => PointValue(m, "")
    case Some(k) => PointValue(m[..k], m[k + 1..])
  }

  /** The digits after `e` or `E`, with an optional sign. */
  function Exponent(x: string): Option<int>
  {
    if x != [] && (x[0] == '+' || x[0] == '-') then
      if |x| > 1 && Digits(x[1..], 10) then
        var v: int := Value(x[1..], 10);
        Some(if x[0] == '-' then -v else v)
      else None
    else if x != [] && Digits(x, 10) then Some(Value(x, 10))
    else None
  }

  function Scale(m: real, e: int): real
  {
    if e >= 0 then m * Pow(10, e) as real else m / Pow(10, -e) as real
  }

  /** An unsigned decimal literal with an optional exponent. */
  function UnsignedDecimal(s: string): Option<real>
  {
    match FirstIndex(s, IsExponentMark)
    case None => Mantissa(s)
    case Some(k) =>
      match (Mantissa(s[..k]), Exponent(s[k + 1..]))
      case (Some(m), Some(e)) => Some(Scale(m, e))
      case _ => None
  }

  /** The base a `0x`, `0o` or `0b` prefix announces, or 0. */
  function RadixOf(c: char): nat
  {
    if c == 'x' || c == 'X' then 16
    else if c == 'o' || c == 'O' then 8
    else if c == 'b' || c == 'B' then 2
    else 0
  }

  /** `Number(s)`: surrounding white space is ignored, blank text is 0, then
      a signed decimal literal (with optional exponent), `Infinity` with an
      optional sign, or an unsigned `0x`/`0o`/`0b` integer; anything else
      is NaN. */
  function JsNumber(s: string): JsNum
  {
    NumberOfTrimmed(Trim(s))
  }

  function NumberOfTrimmed(t: string): JsNum
  {
    if t == "" then Num(0.0)
    else if t == "Infinity" || t == "+Infinity" then PosInf
    else if t == "-Infinity" then NegInf
    else if |t| >= 2 && t[0] == '0' && RadixOf(t[1]) != 0 then PrefixedInteger(t[2..], RadixOf(t[1]))
    else if t[0] == '+' || t[0] == '-' then Signed(t[0] == '-', UnsignedDecimal(t[1..]))
    else Signed(false, UnsignedDecimal(t))
  }

  /** The digits after a `0x`, `0o` or `0b` prefix. */
  function PrefixedInteger(d: string, radix: nat): JsNum
  {
    if d != "" && Digits(d, radix) then Num(Value(d, radix) as real) else NaN
  }

  function Signed(negative: bool, v: Option<real>): JsNum
  {
    match v
    case Some(x) => Num(if negative then -x else x)
    case None => NaN
  }

  // ----- Number() on the texts the wizard sees -----

  /** Text without white space converts as it stands. */
  lemma NumberOfUntrimmed(s: string)
    requires forall c :: c in s ==> !IsJsWhitespace(c)
    ensures JsNumber(s) == NumberOfTrimmed(s)
  {
    TrimPlain(s);
  }

  predicate IsPriceChar(c: char) { IsDigit(c) || c == '.' || c == ',' }

  /** A digit string has only digits: no point, no comma, no exponent mark. */
  lemma DigitsArePlain(d: string)
    requires Digits(d, 10)
    ensures forall c :: c in d ==> IsDigit(c) && IsPriceChar(c) && !IsComma(c) && !IsDot(c)
    ensures forall c :: c in d ==> !IsExponentMark(c) && !IsJsWhitespace(c)
  {
    forall c | c in d ensures IsDigit(c) {
      assert DigitWeight(c) < 10;
    }
  }

  lemma PlainBranch(t: string)
    requires t != "" && IsPriceChar(t[0]) && (|t| >= 2 ==> IsPriceChar(t[1]))
    ensures NumberOfTrimmed(t) == Signed(false, UnsignedDecimal(t))
  {
    assert t != "Infinity" && t != "+Infinity" && t != "-Infinity" by {
      assert t[0] != "Infinity"[0] && t[0] != "+Infinity"[0] && t[0] != "-Infinity"[0];
    }
  }

  lemma SignedBranch(t: string)
    requires |t| >= 2 && (t[0] == '+' || t[0] == '-') && IsDigit(t[1])
    ensures NumberOfTrimmed(t) == Signed(t[0] == '-', UnsignedDecimal(t[1..]))
  {
    assert t != "Infinity" by {
      assert t[0] != "Infinity"[0];
    }
    assert t != "+Infinity" && t != "-Infinity" by {
      assert t[1] != "+Infinity"[1];
      assert t[1] != "-Infinity"[1];
    }
  }

  /** Without an `e` or `E` the literal is its mantissa. */
  lemma UnsignedWithoutExponent(u: string)
    requires forall c :: c in u ==> !IsExponentMark(c)
    ensures UnsignedDecimal(u) == Mantissa(u)
  {
    NoneFound(u, IsExponentMark);
  }

  /** Text made of digits, `.` and `,` only converts as a decimal literal
      without exponent. */
  lemma NumberOfPlainText(t: string)
    requires t != ""
    requires forall c :: c in t ==> IsPriceChar(c)
    ensures JsNumber(t) == Signed(false, Mantissa(t))
  {
    assert t[0] in t;
    assert |t| >= 2 ==> t[1] in t;
    NumberOfUntrimmed(t);
    PlainBranch(t);
    UnsignedWithoutExponent(t);
  }

  /** A non-empty digit string is a literal worth its value. */
  lemma MantissaOfDigits(d: string)
    requires d != "" && Digits(d, 10)
    ensures Mantissa(d) == Some(Value(d, 10) as real)
  {
    DigitsArePlain(d);
    NoneFound(d, IsDot);
    assert Value("", 10) == 0;
    assert Pow(10, 0) == 1;
  }

  /** A literal with a `.` splits at its (only possible) point. */
  lemma MantissaOfParts(whole: string, frac: string)
    requires Digits(whole, 10)
    ensures Mantissa(whole + "." + frac) == PointValue(whole, frac)
  {
    var m := whole + "." + frac;
    DigitsArePlain(whole);
    FirstIndexAfter(whole, '.', frac, IsDot);
    assert m[..|whole|] == whole;
    assert m[|whole| + 1..] == frac;
  }

  /** `Number(d)` for a digit string d is its value. */
  lemma NumberOfDigits(d: string)
    requires d != "" && Digits(d, 10)
    ensures JsNumber(d) == Num(Value(d, 10) as real)
  {
    DigitsArePlain(d);
    NumberOfPlainText(d);
    MantissaOfDigits(d);
  }

  /** `Number(String(n)) == n` for every natural number. */
  lemma NumberOfDecimalString(n: nat)
    ensures JsNumber(DecimalString(n)) == Num(n as real)
  {
    NumberOfDigits(DecimalString(n));
    ValueOfDecimalString(n);
  }

  /** `Number("w.f")` for digit strings w (not empty) and f is the value of
      the literal: w + f / 10^|f|. */
  lemma NumberOfPointLiteral(whole: string, frac: string)
    requires whole != "" && Digits(whole, 10) && Digits(frac, 10)
    ensures JsNumber(whole + "." + frac) == Signed(false, PointValue(whole, frac))
  {
    DigitsArePlain(whole);
    DigitsArePlain(frac);
    var t := whole + "." + frac;
    assert forall c :: c in t ==> c in whole || c == '.' || c in frac;
    NumberOfPlainText(t);
    MantissaOfParts(whole, frac);
  }

  /** `Number("-d")` is minus the value of the digit string d. */
  lemma NumberOfNegative(d: string)
    requires d != "" && Digits(d, 10)
    ensures JsNumber("-" + d) == Num(-(Value(d, 10) as real))
  {
    var t := "-" + d;
    assert JsNumber(t) == Num(-(Value(d, 10) as real)) by {
      assert t[1..] == d && t[0] == '-';
      NegativeText(t);
    }
  }

  lemma NegativeText(t: string)
    requires |t| >= 2 && t[0] == '-' && Digits(t[1..], 10)
    ensures JsNumber(t) == Num(-(Value(t[1..], 10) as real))
  {
    var d := t[1..];
    DigitsArePlain(d);
    assert JsNumber(t) == NumberOfTrimmed(t) by {
      assert t == [t[0]] + d;
      assert forall c :: c in t ==> c == '-' || c in d;
      NumberOfUntrimmed(t);
    }
    assert NumberOfTrimmed(t) == Signed(true, UnsignedDecimal(d)) by {
      assert t[1] == d[0] && d[0] in d;
      SignedBranch(t);
    }
    assert UnsignedDecimal(d) == Some(Value(d, 10) as real) by {
      UnsignedWithoutExponent(d);
      MantissaOfDigits(d);
    }
  }

  /** A literal with a whole part of at least one is at least one. */
  lemma PointValueAtLeastOne(whole: string, frac: string)
    requires Digits(whole, 10) && Digits(frac, 10) && Value(whole, 10) >= 1
    ensures PointValue(whole, frac).Some? && PointValue(whole, frac).value >= 1.0
  {
    var q := Value(frac, 10) as real / Pow(10, |frac|) as real;
    assert q >= 0.0;
  }

  // ----- a comma is never part of a number -----

  lemma CommaNoMantissa(m: string)
    requires ',' in m
    ensures Mantissa(m) == None
  {
    match FirstIndex(m, IsDot)
    case None =>
    case Some(k) =>
      assert m == m[..k] + [m[k]] + m[k + 1..];
  }

  lemma CommaNoExponent(x: string)
    requires ',' in x
    ensures Exponent(x) == None
  {
    if x[0] == '+' || x[0] == '-' {
      assert x == [x[0]] + x[1..];
    }
  }

  lemma CommaNoUnsigned(u: string)
    requires ',' in u
    ensures UnsignedDecimal(u) == None
  {
    match FirstIndex(u, IsExponentMark)
    case None =>
      CommaNoMantissa(u);
    case Some(k) =>
      assert u == u[..k] + [u[k]] + u[k + 1..];
      if ',' in u[..k] {
        CommaNoMantissa(u[..k]);
      } else {
        CommaNoExponent(u[k + 1..]);
      }
  }

  lemma CommaNumberOfTrimmed(t: string)
    requires ',' in t
    ensures NumberOfTrimmed(t) == NaN
  {
    assert t != "Infinity" && t != "+Infinity" && t != "-Infinity" by {
      assert ',' !in "Infinity" && ',' !in "+Infinity" && ',' !in "-Infinity";
    }
    if |t| >= 2 && t[0] == '0' && RadixOf(t[1]) != 0 {
      assert t == t[..2] + t[2..];
    } else if t[0] == '+' || t[0] == '-' {
      assert t == [t[0]] + t[1..];
      CommaNoUnsigned(t[1..]);
    } else {
      CommaNoUnsigned(t);
    }
  }

  /** JavaScript never reads a `,` as part of a number: any text with a comma is NaN. */
  lemma CommaIsNaN(s: string)
    requires ',' in s
    ensures JsNumber(s) == NaN
  {
    var i :| 0 <= i < |s| && s[i] == ',';
    TrimKeeps(s, i);
    CommaNumberOfTrimmed(Trim(s));
  }

  // ----- price -----

  /** The step-2 price cleaning: every character other than a digit, `.` or
      `,` is dropped, then the first `,` (only the first) becomes `.`. */
  function CleanPrice(raw: string): (r: string)
  {
    CommaToPoint(Filter(raw, IsPriceChar))
  }

  /** `replace(",", ".")` with a string pattern: only the first comma is replaced. */
  function CommaToPoint(kept: string): (r: string)
  {
    match FirstIndex(kept, IsComma)
    case None => kept
    case Some(k) => kept[..k] + "." + kept[k + 1..]
  }

  /** The first comma, after a comma-free prefix, is the one replaced. */
  lemma CommaToPointFirst(before: string, after: string)
    requires ',' !in before
    ensures CommaToPoint(before + "," + after) == before + "." + after
  {
    var kept := before + [','] + after;
    FirstIndexAfter(before, ',', after, IsComma);
    assert kept[..|before|] == before;
    assert kept[|before| + 1..] == after;
  }

  /** Cleaning keeps one character for each digit, `.` and `,` of the typed text. */
  lemma CleanPriceLength(raw: string)
    ensures |CleanPrice(raw)| == Count(raw, IsPriceChar)
  {
    FilterSpec(raw, IsPriceChar);
  }

  /** The cleaned text holds only digits, `.` and `,`. */
  lemma CleanPriceChars(raw: string)
    ensures forall c :: c in CleanPrice(raw) ==> IsPriceChar(c)
  {
    var kept := Filter(raw, IsPriceChar);
    FilterSpec(raw, IsPriceChar);
    match FirstIndex(kept, IsComma)
    case None =>
    case Some(k) =>
      assert forall c :: c in kept[..k] || c in kept[k + 1..] ==> c in kept;
  }

  /** Cleaning turns exactly one comma, the first, into a point. */
  lemma CleanPriceCommas(raw: string)
    ensures Count(CleanPrice(raw), IsComma) == if Count(raw, IsComma) == 0 then 0 else Count(raw, IsComma) - 1
  {
    var kept := Filter(raw, IsPriceChar);
    CountOfFilter(raw, IsPriceChar, IsComma);
    match FirstIndex(kept, IsComma)
    case None =>
      FilterAllOrNone(kept, IsComma);
      FilterSpec(kept, IsComma);
    case Some(k) =>
      assert kept == kept[..k] + [','] + kept[k + 1..];
      CountAppend(kept[..k] + [','], kept[k + 1..], IsComma);
      CountAppend(kept[..k], [','], IsComma);
      CountAppend(kept[..k] + ".", kept[k + 1..], IsComma);
      CountAppend(kept[..k], ".", IsComma);
  }

  /** The guard `!priceRaw || isNaN(price) || price <= 0`, negated. */
  predicate PriceAccepted(raw: string)
  {
    raw != "" && JsNumber(CleanPrice(raw)).Num? && JsNumber(CleanPrice(raw)).v > 0.0
  }

  /** A price is accepted exactly when the typed text is not empty and the
      cleaned text is a decimal literal, without exponent, of positive value. */
  lemma PriceAcceptedIff(raw: string)
    ensures PriceAccepted(raw) <==>
      raw != "" && Mantissa(CleanPrice(raw)).Some? && Mantissa(CleanPrice(raw)).value > 0.0
  {
    CleanPriceChars(raw);
    if CleanPrice(raw) != "" {
      NumberOfPlainText(CleanPrice(raw));
    } else {
      assert FirstIndex(CleanPrice(raw), IsDot) == None;
    }
  }

  /** A decimal literal has a digit, at most one `.`, and nothing else. */
  lemma MantissaShape(m: string)
    requires Mantissa(m).Some?
    ensures exists c :: c in m && IsDigit(c)
    ensures forall c :: c in m ==> IsDigit(c) || c == '.'
    ensures Count(m, IsDot) <= 1
  {
    match FirstIndex(m, IsDot)
    case None =>
      DigitsArePlain(m);
      assert m[0] in m;
      CountNone(m, IsDot);
    case Some(k) =>
      var whole, frac := m[..k], m[k + 1..];
      DigitsArePlain(whole);
      DigitsArePlain(frac);
      assert m == whole + ['.'] + frac;
      assert exists c :: c in m && IsDigit(c) by {
        if whole != "" {
          assert whole[0] in m;
        } else {
          assert frac[0] in m;
        }
      }
      assert Count(m, IsDot) == 1 by {
        CountNone(whole, IsDot);
        CountNone(frac, IsDot);
        CountAppend(whole + ['.'], frac, IsDot);
        CountAppend(whole, ['.'], IsDot);
      }
  }

  /** Text around a comma-separated number, such as "$1,200", cleans to the
      same digits with a point: the comma becomes the decimal mark. */
  lemma CleanCommaPrice(junk: string, whole: string, frac: string)
    requires forall c :: c in junk ==> !IsPriceChar(c)
    requires Digits(whole, 10) && Digits(frac, 10)
    ensures CleanPrice(junk + whole + "," + frac) == whole + "." + frac
  {
    var text := whole + "," + frac;
    assert junk + whole + "," + frac == junk + text;
    FilterAppend(junk, text, IsPriceChar);
    FilterAllOrNone(junk, IsPriceChar);
    assert Filter(junk + text, IsPriceChar) == Filter(text, IsPriceChar);
    KeptCommaPrice(whole, frac);
    DigitsArePlain(whole);
    CommaToPointFirst(whole, frac);
  }

  /** A comma-separated number loses nothing to the filter. */
  lemma KeptCommaPrice(whole: string, frac: string)
    requires Digits(whole, 10) && Digits(frac, 10)
    ensures Filter(whole + "," + frac, IsPriceChar) == whole + "," + frac
  {
    DigitsArePlain(whole);
    DigitsArePlain(frac);
    var text := whole + "," + frac;
    assert forall c :: c in text ==> c in whole || c == ',' || c in frac;
    FilterAllOrNone(text, IsPriceChar);
  }

  /** So "$1,200" is the price 1 + 200/1000 = 1.2: every price written
      `w,f` after any text without digits, points or commas is the decimal w.f. */
  lemma CommaPriceIsDecimal(junk: string, whole: string, frac: string)
    requires forall c :: c in junk ==> !IsPriceChar(c)
    requires whole != "" && Digits(whole, 10) && Digits(frac, 10)
    ensures JsNumber(CleanPrice(junk + whole + "," + frac)) == Signed(false, PointValue(whole, frac))
  {
    CleanCommaPrice(junk, whole, frac);
    NumberOfPointLiteral(whole, frac);
  }

  /** Only the first comma is rewritten, so a price typed with two or more
      commas ("1,200,00") is always rejected. */
  lemma TwoCommasRejected(raw: string)
    requires Count(raw, IsComma) >= 2
    ensures !PriceAccepted(raw)
  {
    CleanPriceCommas(raw);
    CountPositive(CleanPrice(raw), IsComma);
    CommaIsNaN(CleanPrice(raw));
  }

  // ----- taxes and quantity -----

  /** The taxes check: the raw text, converted without any cleaning, must not be NaN. */
  predicate TaxesAccepted(taxes: JsNum)
  {
    !taxes.NaN?
  }

  /** The quantity check `isNaN(quantity) || quantity < 1`, negated. */
  predicate QuantityAccepted(q: JsNum)
  {
    (q.Num? && q.v >= 1.0) || q.PosInf?
  }

  /** Taxes written with a decimal comma are rejected, though a price written
      the same way is accepted. */
  lemma TaxesNotCleaned(whole: string, frac: string)
    requires Digits(whole, 10) && Digits(frac, 10) && Value(whole, 10) >= 1
    ensures !TaxesAccepted(JsNumber(whole + "," + frac))
    ensures PriceAccepted(whole + "," + frac)
  {
    assert ',' in whole + "," + frac;
    CommaIsNaN(whole + "," + frac);
    CommaPriceAccepted(whole, frac);
  }

  lemma CommaPriceAccepted(whole: string, frac: string)
    requires Digits(whole, 10) && Digits(frac, 10) && Value(whole, 10) >= 1
    ensures PriceAccepted(whole + "," + frac)
  {
    assert whole != "";
    var raw := whole + "," + frac;
    KeptCommaPrice(whole, frac);
    DigitsArePlain(whole);
    CommaToPointFirst(whole, frac);
    assert CleanPrice(raw) == whole + "." + frac;
    NumberOfPointLiteral(whole, frac);
    PointValueAtLeastOne(whole, frac);
  }

  /** Negative taxes pass the check. */
  lemma NegativeTaxesAccepted(d: string)
    requires d != "" && Digits(d, 10)
    ensures TaxesAccepted(JsNumber("-" + d))
  {
    NumberOfNegative(d);
  }

  /** A quantity need not be a whole number: "1.5" passes. */
  lemma FractionalQuantityAccepted(whole: string, frac: string)
    requires Digits(whole, 10) && Digits(frac, 10) && Value(whole, 10) >= 1
    ensures QuantityAccepted(JsNumber(whole + "." + frac))
  {
    NumberOfPointLiteral(whole, frac);
    PointValueAtLeastOne(whole, frac);
  }

  // ----- date -----

  predicate EightDigitsAt(s: string, i: nat)
  {
    i + 8 <= |s| && Digits(s[i..i + 8], 10)
  }

  /** The leftmost match of `(\d{2})(\d{2})(\d{4})` at or after `from`. */
  function FirstEightDigits(s: string, from: nat): (r: Option<nat>)
    ensures r.Some? ==> from <= r.value && EightDigitsAt(s, r.value)
    ensures r.Some? ==> forall j :: from <= j < r.value ==> !EightDigitsAt(s, j)
    ensures r.None? ==> forall j :: from <= j ==> !EightDigitsAt(s, j)
    decreases |s| - from
  {
    if from + 8 > |s| then None
    else if EightDigitsAt(s, from) then Some(from)
    else FirstEightDigits(s, from + 1)
  }

  /** The step-2 date rewrite: a non-empty date without `/` has its leftmost
      run of eight digits rewritten as `dd/mm/yyyy`; the rest is kept. */
  function NormaliseDate(s: string): (r: string)
  {
    if s == "" || '/' in s then s
    else match FirstEightDigits(s, 0)
      case None => s
      case Some(k) => s[..k + 2] + "/" + s[k + 2..k + 4] + "/" + s[k + 4..]
  }

  /** A date is left alone when it is empty, already has a `/` or has no run
      of eight digits. */
  lemma NormaliseDateKept(s: string)
    requires s == "" || '/' in s || forall j: nat :: !EightDigitsAt(s, j)
    ensures NormaliseDate(s) == s
  {
  }

  /** Otherwise two slashes go in after the first and the second pair of
      digits of the leftmost run of eight digits, and nothing else changes. */
  lemma NormaliseDateRewrites(s: string, k: nat)
    requires '/' !in s && EightDigitsAt(s, k)
    requires forall j: nat :: j < k ==> !EightDigitsAt(s, j)
    ensures |NormaliseDate(s)| == |s| + 2
    ensures NormaliseDate(s)[..k + 2] == s[..k + 2]
    ensures NormaliseDate(s)[k + 2] == '/' && NormaliseDate(s)[k + 5] == '/'
    ensures NormaliseDate(s)[k + 3..k + 5] == s[k + 2..k + 4]
    ensures NormaliseDate(s)[k + 6..] == s[k + 4..]
  {
    var f := FirstEightDigits(s, 0);
    assert f == Some(k);
  }

  /** The text with every `/` removed. */
  function DropSlashes(s: string): (r: string)
    ensures '/' !in r
    ensures |r| <= |s|
  {
    if s == [] then [] else (if s[0] == '/' then [] else [s[0]]) + DropSlashes(s[1..])
  }

  lemma {:induction false} DropSlashesAppend(a: string, b: string)
    ensures DropSlashes(a + b) == DropSlashes(a) + DropSlashes(b)
  {
    if a != [] {
      assert (a + b)[1..] == a[1..] + b;
      assert (a + b)[0] == a[0];
      DropSlashesAppend(a[1..], b);
    } else {
      assert a + b == b;
    }
  }

  lemma {:induction false} DropSlashesNone(s: string)
    requires '/' !in s
    ensures DropSlashes(s) == s
  {
    if s != [] {
      assert forall c :: c in s[1..] ==> c in s;
      DropSlashesNone(s[1..]);
    }
  }

  lemma DropSlashesThenSlash(x: string)
    ensures DropSlashes(x + "/") == DropSlashes(x)
  {
    DropSlashesAppend(x, "/");
    assert DropSlashes("/") == [];
  }

  lemma DropSlashesThenPlain(x: string, b: string)
    requires '/' !in b
    ensures DropSlashes(x + b) == DropSlashes(x) + b
  {
    DropSlashesAppend(x, b);
    DropSlashesNone(b);
  }

  /** Removing the slashes from three slash-free parts joined by two slashes
      gives the parts back. */
  lemma DropInsertedSlashes(a: string, b: string, c: string)
    requires '/' !in a && '/' !in b && '/' !in c
    ensures DropSlashes(a + "/" + b + "/" + c) == a + b + c
  {
    DropSlashesNone(a);
    DropSlashesThenSlash(a);
    DropSlashesThenPlain(a + "/", b);
    DropSlashesThenSlash(a + "/" + b);
    DropSlashesThenPlain(a + "/" + b + "/", c);
  }

  /** Removing the slashes undoes the rewrite. */
  lemma NormaliseDateUndone(s: string)
    requires '/' !in s
    ensures DropSlashes(NormaliseDate(s)) == s
  {
    if s != "" && FirstEightDigits(s, 0).Some? {
      var k := FirstEightDigits(s, 0).value;
      var a, b, c := s[..k + 2], s[k + 2..k + 4], s[k + 4..];
      assert s == a + b + c;
      DropInsertedSlashes(a, b, c);
    } else {
      DropSlashesNone(s);
    }
  }

  /** Rewriting a date twice changes nothing more. */
  lemma NormaliseDateIdempotent(s: string)
    ensures NormaliseDate(NormaliseDate(s)) == NormaliseDate(s)
  {
    var r := NormaliseDate(s);
    if r != s {
      var k := FirstEightDigits(s, 0).value;
      assert r[k + 2] == '/';
    }
  }

  // ----- image link -----

  /** The step-2 image link check, on the trimmed text. */
  predicate ImageUrlAccepted(raw: string)
  {
    var u := Trim(raw);
    StartsWith(u, "https://") || StartsWith(u, "http://")
  }

  /** The check reads the trimmed text, so trimming first changes nothing. */
  lemma ImageUrlTrimmed(raw: string)
    ensures ImageUrlAccepted(Trim(raw)) == ImageUrlAccepted(raw)
  {
    TrimIdempotent(raw);
  }

  /** Any text after an `http://` or `https://` scheme passes, whatever it holds. */
  lemma ImageUrlSchemeAccepted(scheme: string, rest: string)
    requires scheme == "https://" || scheme == "http://"
    ensures ImageUrlAccepted(scheme + rest)
  {
    var s := scheme + rest;
    assert s[0] == 'h';
    TrimSolidStart(s);
    var r := TrimEnd(s);
    TrimEndCut(s);
    TrimEndShape(s);
    assert !IsJsWhitespace(s[|scheme| - 1]);
    assert |scheme| <= |r|;
    assert r[..|scheme|] == s[..|scheme|] == scheme;
  }

  /** The prefix test is case-sensitive: a link or a file path whose trimmed
      text starts with a capital letter (`HTTPS://...`, `C:\...`) fails. */
  lemma ImageUrlCapitalRejected(raw: string)
    requires Trim(raw) != "" && IsUpperAscii(Trim(raw)[0])
    ensures !ImageUrlAccepted(raw)
  {
  }

  // ----- e-mail -----

  /** A run of one or more characters that are neither `@` nor white space (`[^\s@]+`). */
  predicate EmailPart(s: string)
  {
    s != [] && forall c :: c in s ==> c != '@' && !IsJsWhitespace(c)
  }

  /** The settings pattern `^[^\s@]+@[^\s@]+\.[^\s@]+$`: the text splits as
      part, `@`, part, `.`, part. */
  predicate EmailMatches(s: string)
  {
    exists i, j ::
      && 0 < i < j < |s|
      && s[i] == '@' && s[j] == '.'
      && EmailPart(s[..i]) && EmailPart(s[i + 1..j]) && EmailPart(s[j + 1..])
  }

  /** A single scan's version of the same pattern: one `@` with text before
      it, no white space, and a `.` inside the text after the `@` that is
      neither its first nor its last character. */
  predicate EmailShaped(s: string)
  {
    match FirstIndex(s, IsAt)
    case None => false
    case Some(i) =>
      var domain := s[i + 1..];
      && EmailPart(s[..i])
      && EmailPart(domain)
      && |domain| >= 3
      && '.' in domain[1..|domain| - 1]
  }

  /** A split as the pattern describes has the scanned shape. */
  lemma EmailMatchesShaped(s: string, i: nat, j: nat)
    requires 0 < i < j < |s| && s[i] == '@' && s[j] == '.'
    requires EmailPart(s[..i]) && EmailPart(s[i + 1..j]) && EmailPart(s[j + 1..])
    ensures EmailShaped(s)
  {
    var local, domain := s[..i], s[i + 1..];
    assert FirstIndex(s, IsAt) == Some(i) by {
      assert s == local + ['@'] + domain;
      FirstIndexAfter(local, '@', domain, IsAt);
    }
    assert EmailPart(domain) && |domain| >= 3 && '.' in domain[1..|domain| - 1] by {
      DomainShaped(s[i + 1..j], s[j + 1..]);
      assert domain == s[i + 1..j] + "." + s[j + 1..];
    }
  }

  /** `part.part` is a domain with an inner point. */
  lemma DomainShaped(mid: string, top: string)
    requires EmailPart(mid) && EmailPart(top)
    ensures EmailPart(mid + "." + top)
    ensures |mid + "." + top| >= 3
    ensures '.' in (mid + "." + top)[1..|mid + "." + top| - 1]
  {
    var domain := mid + "." + top;
    assert domain[1..|domain| - 1][|mid| - 1] == '.';
  }

  /** A stretch of a part is a part. */
  lemma PartOfPart(p: string, a: nat, b: nat)
    requires EmailPart(p) && a < b <= |p|
    ensures EmailPart(p[a..b])
  {
    forall c | c in p[a..b] ensures c in p {
      var k :| 0 <= k < b - a && p[a..b][k] == c;
      assert p[a + k] == c;
    }
  }

  lemma SliceOfTail(s: string, i: nat, a: nat, b: nat)
    requires i <= |s| && a <= b <= |s| - i
    ensures s[i..][a..b] == s[i + a..i + b]
  {
  }

  /** What the scanned shape says about the text after the first `@`. */
  lemma ShapedParts(s: string)
    requires EmailShaped(s)
    ensures FirstIndex(s, IsAt).Some?
    ensures var i := FirstIndex(s, IsAt).value;
            var domain := s[i + 1..];
            && EmailPart(s[..i]) && EmailPart(domain) && |domain| >= 3
            && '.' in domain[1..|domain| - 1]
  {
  }

  /** The scanned shape gives the split the pattern describes. */
  lemma EmailShapedMatches(s: string)
    requires EmailShaped(s)
    ensures EmailMatches(s)
  {
    ShapedParts(s);
    var i := FirstIndex(s, IsAt).value;
    var domain := s[i + 1..];
    var inner := domain[1..|domain| - 1];
    var d :| 0 <= d < |inner| && inner[d] == '.';
    var j := i + 2 + d;
    assert s[j] == domain[d + 1] == '.';
    assert EmailPart(s[i + 1..j]) by {
      PartOfPart(domain, 0, d + 1);
      SliceOfTail(s, i + 1, 0, d + 1);
    }
    assert EmailPart(s[j + 1..]) by {
      PartOfPart(domain, d + 2, |domain|);
      SliceOfTail(s, i + 1, d + 2, |domain|);
    }
  }

  /** The split the pattern describes exists exactly when the text has the
      scanned shape. */
  lemma EmailPatternIff(s: string)
    ensures EmailMatches(s) <==> EmailShaped(s)
  {
    if EmailMatches(s) {
      var i, j :| 0 < i < j < |s| && s[i] == '@' && s[j] == '.'
        && EmailPart(s[..i]) && EmailPart(s[i + 1..j]) && EmailPart(s[j + 1..]);
      EmailMatchesShaped(s, i, j);
    }
    if EmailShaped(s) {
      EmailShapedMatches(s);
    }
  }
}
