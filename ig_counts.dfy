/** parse_compact_number in crawler_ig.py: the following count shown on a
    profile page ("1,234", "12 K", "3.4M") as an integer. */
module IgCounts {
  import opened Outcome
  import opened Text

  datatype Suffix = NoSuffix | Thousand | Million | Billion

  function Multiplier(s: Suffix): (m: nat)
  {
    match s
    case NoSuffix => 1
    case Thousand => 1_000
    case Million => 1_000_000
    case Billion => 1_000_000_000
  }

  /** A K, M or B, in either case (the pattern is compiled with IGNORECASE). */
  function SuffixLetter(c: char): Option<Suffix>
  {
    if c == 'K' || c == 'k' then Some(Thousand)
    else if c == 'M' || c == 'm' then Some(Million)
    else if c == 'B' || c == 'b' then Some(Billion)
    else None
  }

  /** The characters of the class [\d.,\s]. */
  predicate IsNumberChar(c: char)
  {
    IsDigit(c) || c == '.' || c == ',' || IsSpace(c)
  }

  predicate AllNumberChars(s: string)
  {
    forall i :: 0 <= i < |s| ==> IsNumberChar(s[i])
  }

  /** What COMPACT_NUMBER_RE = ^([\d.,\s]+)([KMB]?)$ captures, if it matches. */
  datatype Capture = Capture(numberPart: string, suffix: Suffix)

  function MatchCompact(cleaned: string): (m: Option<Capture>)
    ensures m.Some? ==> m.value.numberPart != [] && AllNumberChars(m.value.numberPart)
  {
    if cleaned == [] then None
    else if AllNumberChars(cleaned) then Some(Capture(cleaned, NoSuffix))
    else
      var last := cleaned[|cleaned| - 1];
      var head := cleaned[..|cleaned| - 1];
      if SuffixLetter(last).Some? && head != [] && AllNumberChars(head) then
        Some(Capture(head, SuffixLetter(last).value))
      else None
  }

  /** An exact decimal: mantissa / 10^scale. */
  datatype Decimal = Decimal(mantissa: nat, scale: nat)

  function CountChar(s: string, c: char): nat
  {
    if s == [] then 0 else (if s[0] == c then 1 else 0) + CountChar(s[1..], c)
  }

  /** float(s) for text made of digits, '.' and whitespace: surrounding
      whitespace is ignored, and the rest must be digits with at most one '.'
      and at least one digit; anything else raises ValueError (None). */
  function PyFloat(s: string): (d: Option<Decimal>)
  {
    var t := StripSpace(s);
    if (forall i :: 0 <= i < |t| ==> IsDigit(t[i]) || t[i] == '.') && CountChar(t, '.') <= 1 && DigitsOf(t) != [] then
      var whole := Before(t, '.');
      var fraction := if |whole| < |t| then t[|whole| + 1..] else [];
      Some(Decimal(DecimalValue(DigitsOf(t)), |fraction|))
    else None
  }

  /** float() refuses text holding, after stripping, a character that is
      neither a digit nor the decimal point. */
  lemma PyFloatRejects(s: string, c: char)
    requires c in s && !IsSpace(c) && !IsDigit(c) && c != '.'
    ensures PyFloat(s).None?
  {
    StripSpaceKeeps(s, c);
    var t := StripSpace(s);
    var j :| 0 <= j < |t| && t[j] == c;
    assert !(IsDigit(t[j]) || t[j] == '.');
  }

  /** The except branch: the digits of the number part, as a whole number. */
  function DigitsOnly(numberPart: string): (d: Decimal)
  {
    Decimal(DecimalValue(DigitsOf(numberPart)), 0)
  }

  /** The number the try block computes for a captured number part. */
  function NumberOf(numberPart: string, suffix: Suffix): (d: Decimal)
  {
    if suffix != NoSuffix then
      match PyFloat(ReplaceChar(numberPart, ',', '.'))
      case Some(d) => d
      case None => DigitsOnly(numberPart)
    else
      var normalized := RemoveChar(RemoveChar(numberPart, ','), '.');
      if normalized == [] then Decimal(0, 0)
      else
        match PyFloat(normalized)
        case Some(d) => d
        case None => DigitsOnly(numberPart)
  }

  /** The text the pattern is matched against: stripped, with narrow and
      ordinary no-break spaces turned into spaces. */
  function Cleaned(value: string): string
  {
    ReplaceChar(ReplaceChar(StripSpace(value), '\U{202F}', ' '), '\U{A0}', ' ')
  }

  /** int(number * multiplier) for a non-negative exact decimal. */
  function Scaled(d: Decimal, multiplier: nat): (n: nat)
  {
    var product := d.mantissa * multiplier;
    var unit := Pow10(d.scale);
    TruncationNonNegative(d.mantissa, multiplier, unit);
    product / unit
  }

  /** Kept apart from Scaled: in Scaled's own context the solver does not
      find these two facts about non-linear terms within its budget. */
  lemma TruncationNonNegative(a: nat, b: nat, unit: nat)
    requires unit >= 1
    ensures a * b >= 0 && a * b / unit >= 0
  {
  }

  /** parse_compact_number, with float arithmetic replaced by exact decimals:
      int(number * multiplier) truncates a non-negative value, which is the
      floor of the exact product. */
  function ParseCompactNumber(value: string): (n: int)
    ensures n >= 0
    ensures value == "" ==> n == 0
  {
    if value == [] then 0
    else
      var cleaned := Cleaned(value);
      match MatchCompact(cleaned)
      case None => DecimalValue(DigitsOf(cleaned))
      case Some(Capture(part, suffix)) =>
        var number := NumberOf(RemoveChar(part, ' '), suffix);
        Scaled(number, Multiplier(suffix))
  }

  /** The pattern matches with a K, M or B suffix. */
  predicate CapturesSuffix(value: string)
  {
    var m := MatchCompact(Cleaned(value));
    m.Some? && m.value.suffix != NoSuffix
  }

  /** Without a K, M or B suffix the count is the number spelled by all the
      decimal digits of the text, separators and spaces ignored: "1,234" and
      "1.234" both give 1234, text without digits gives 0. */
  lemma CountWithoutSuffix(value: string)
    requires !CapturesSuffix(value)
    ensures ParseCompactNumber(value) == DecimalValue(DigitsOf(value))
  {
    if value != [] {
      var cleaned := Cleaned(value);
      CleanedDigits(value);
      var m := MatchCompact(cleaned);
      if m.None? {
        assert ParseCompactNumber(value) == DecimalValue(DigitsOf(cleaned));
      } else {
        var part := m.value.numberPart;
        assert m.value.suffix == NoSuffix;
        DigitsOfPart(cleaned);
        NumberWithoutSuffix(part);
        var number := NumberOf(RemoveChar(part, ' '), NoSuffix);
        assert Scaled(number, 1) == DecimalValue(DigitsOf(part));
        assert ParseCompactNumber(value) == Scaled(number, Multiplier(NoSuffix));
      }
    }
  }

  lemma CleanedDigits(value: string)
    ensures DigitsOf(Cleaned(value)) == DigitsOf(value)
  {
    DigitsOfStripSpace(value);
    DigitsOfReplaceChar(StripSpace(value), '\U{202F}', ' ');
    DigitsOfReplaceChar(ReplaceChar(StripSpace(value), '\U{202F}', ' '), '\U{A0}', ' ');
  }

  /** Without a suffix, both the float path and its except branch read the
      digits of the number part as a whole number. */
  lemma NumberWithoutSuffix(part: string)
    ensures NumberOf(RemoveChar(part, ' '), NoSuffix) == Decimal(DecimalValue(DigitsOf(part)), 0)
  {
    var numberPart := RemoveChar(part, ' ');
    var normalized := RemoveChar(RemoveChar(numberPart, ','), '.');
    DigitsOfRemoveChar(part, ' ');
    DigitsOfRemoveChar(numberPart, ',');
    DigitsOfRemoveChar(RemoveChar(numberPart, ','), '.');
    assert DigitsOf(normalized) == DigitsOf(part);
    if normalized != [] && PyFloat(normalized).Some? {
      var t := StripSpace(normalized);
      StripSpaceKeepsAbsence(normalized, '.');
      DigitsOfStripSpace(normalized);
      BeforeAbsent(t, '.');
    }
  }

  /** The captured number part holds every digit of the cleaned text. */
  lemma DigitsOfPart(cleaned: string)
    requires MatchCompact(cleaned).Some? && MatchCompact(cleaned).value.suffix == NoSuffix
    ensures DigitsOf(MatchCompact(cleaned).value.numberPart) == DigitsOf(cleaned)
  {
  }

  lemma {:induction false} CountCharAbsent(s: string, c: char)
    requires c !in s
    ensures CountChar(s, c) == 0
  {
    if s != [] { CountCharAbsent(s[1..], c); }
  }

  lemma {:induction false} CountCharConcat(a: string, b: string, c: char)
    ensures CountChar(a + b, c) == CountChar(a, c) + CountChar(b, c)
  {
    if a == [] {
      assert a + b == b;
    } else {
      assert (a + b)[1..] == a[1..] + b;
      CountCharConcat(a[1..], b, c);
    }
  }

  /** A whole number of digits followed by K, M or B is that number times
      1,000, 1,000,000 or 1,000,000,000: "12K" gives 12000. */
  lemma CountWithSuffix(digits: string, letter: char)
    requires digits != [] && AllDigits(digits) && SuffixLetter(letter).Some?
    ensures ParseCompactNumber(digits + [letter]) == DecimalValue(digits) * Multiplier(SuffixLetter(letter).value)
  {
    var suffix := SuffixLetter(letter).value;
    var value := digits + [letter];
    assert AllNumberChars(digits) && forall i :: 0 <= i < |digits| ==> !IsSpace(digits[i]) by {
      assert forall i :: 0 <= i < |digits| ==> IsDigit(digits[i]);
    }
    SuffixCapture(digits, letter);
    ParseCaptured(value, digits, suffix);
    WholeNumber(digits);
    ScaledWhole(DecimalValue(digits), Multiplier(suffix));
  }

  /** Text the pattern captures is parsed from its number part. */
  lemma ParseCaptured(value: string, part: string, suffix: Suffix)
    requires value != [] && MatchCompact(Cleaned(value)) == Some(Capture(part, suffix))
    ensures ParseCompactNumber(value) == Scaled(NumberOf(RemoveChar(part, ' '), suffix), Multiplier(suffix))
  {
  }

  lemma ScaledWhole(mantissa: nat, multiplier: nat)
    ensures Scaled(Decimal(mantissa, 0), multiplier) == mantissa * multiplier
  {
  }

  /** A decimal with a suffix is scaled exactly and truncated: "3.4M" gives
      3400000. (CPython's binary floats give 2009 for "2.01K", where this
      exact model gives 2010.) */
  lemma CountWithDecimalSuffix(whole: string, fraction: string, letter: char)
    requires whole != [] && AllDigits(whole) && AllDigits(fraction) && SuffixLetter(letter).Some?
    ensures ParseCompactNumber(whole + "." + fraction + [letter]) ==
      (DecimalValue(whole + fraction) * Multiplier(SuffixLetter(letter).value)) / Pow10(|fraction|)
  {
    var number := whole + "." + fraction;
    assert AllNumberChars(number) by {
      forall i | 0 <= i < |number| ensures IsNumberChar(number[i]) {
        if i < |whole| { assert number[i] == whole[i]; }
        else if i > |whole| { assert number[i] == fraction[i - |whole| - 1]; }
      }
    }
    SuffixCapture(number, letter);
    DecimalNumber(whole, fraction);
  }

  /** The pattern captures everything before the suffix letter as the number
      part of such text. */
  lemma SuffixCapture(number: string, letter: char)
    requires number != [] && IsDigit(number[0]) && AllNumberChars(number) && SuffixLetter(letter).Some?
    requires forall i :: 0 <= i < |number| ==> !IsSpace(number[i])
    ensures MatchCompact(Cleaned(number + [letter])) == Some(Capture(number, SuffixLetter(letter).value))
  {
    var value := number + [letter];
    NoBreakSpacesAbsent(number, letter);
    CleanedPlain(value);
    MatchWithSuffix(number, letter);
  }

  lemma NoBreakSpacesAbsent(number: string, letter: char)
    requires SuffixLetter(letter).Some?
    requires forall i :: 0 <= i < |number| ==> !IsSpace(number[i])
    ensures '\U{202F}' !in number + [letter] && '\U{A0}' !in number + [letter]
  {
    var value := number + [letter];
    assert forall i :: 0 <= i < |value| ==> !IsSpace(value[i]) by {
      forall i | 0 <= i < |value| ensures !IsSpace(value[i]) {
        if i < |number| { assert value[i] == number[i]; }
      }
    }
  }

  lemma MatchWithSuffix(number: string, letter: char)
    requires number != [] && AllNumberChars(number) && SuffixLetter(letter).Some?
    ensures MatchCompact(number + [letter]) == Some(Capture(number, SuffixLetter(letter).value))
  {
    var value := number + [letter];
    assert value[..|value| - 1] == number;
    assert !IsNumberChar(value[|value| - 1]);
  }

  /** float() of a plain digit string, with a suffix. */
  lemma WholeNumber(digits: string)
    requires digits != [] && AllDigits(digits)
    ensures forall s :: s != NoSuffix ==> NumberOf(RemoveChar(digits, ' '), s) == Decimal(DecimalValue(digits), 0)
  {
    assert ' ' !in digits && ',' !in digits && '.' !in digits by {
      assert forall i :: 0 <= i < |digits| ==> IsDigit(digits[i]);
    }
    RemoveAbsent(digits, ' ');
    ReplaceAbsent(digits, ',', '.');
    PyFloatWhole(digits);
  }

  /** float() of a plain digit string is that whole number. */
  lemma PyFloatWhole(digits: string)
    requires digits != [] && AllDigits(digits)
    ensures PyFloat(digits) == Some(Decimal(DecimalValue(digits), 0))
  {
    assert '.' !in digits by {
      assert forall i :: 0 <= i < |digits| ==> IsDigit(digits[i]);
    }
    StripSpaceUnchanged(digits);
    CountCharAbsent(digits, '.');
    DigitsOfAllDigits(digits);
    BeforeAbsent(digits, '.');
  }

  /** float() of "whole.fraction", with a suffix. */
  lemma DecimalNumber(whole: string, fraction: string)
    requires whole != [] && AllDigits(whole) && AllDigits(fraction)
    ensures forall s :: s != NoSuffix ==>
      NumberOf(RemoveChar(whole + "." + fraction, ' '), s) == Decimal(DecimalValue(whole + fraction), |fraction|)
  {
    var number := whole + "." + fraction;
    assert ' ' !in number && ',' !in number by {
      assert forall i :: 0 <= i < |number| ==> IsDigit(number[i]) || number[i] == '.';
    }
    RemoveAbsent(number, ' ');
    ReplaceAbsent(number, ',', '.');
    PyFloatDecimal(whole, fraction);
  }

  lemma PyFloatDecimal(whole: string, fraction: string)
    requires whole != [] && AllDigits(whole) && AllDigits(fraction)
    ensures PyFloat(whole + "." + fraction) == Some(Decimal(DecimalValue(whole + fraction), |fraction|))
  {
    var number := whole + "." + fraction;
    assert '.' !in whole && '.' !in fraction by {
      assert forall i :: 0 <= i < |whole| ==> IsDigit(whole[i]);
      assert forall i :: 0 <= i < |fraction| ==> IsDigit(fraction[i]);
    }
    StripSpaceUnchanged(number);
    DotCount(whole, fraction);
    DigitsOfDecimal(whole, fraction);
    BeforeFirst(whole, '.', fraction);
    assert number[|whole| + 1..] == fraction;
    assert forall i :: 0 <= i < |number| ==> IsDigit(number[i]) || number[i] == '.';
  }

  lemma DotCount(whole: string, fraction: string)
    requires '.' !in whole && '.' !in fraction
    ensures CountChar(whole + "." + fraction, '.') == 1
  {
    CountCharAbsent(whole, '.');
    CountCharAbsent(fraction, '.');
    CountCharConcat(whole + ".", fraction, '.');
    CountCharConcat(whole, ".", '.');
    assert CountChar(".", '.') == 1;
  }

  lemma DigitsOfDecimal(whole: string, fraction: string)
    requires AllDigits(whole) && AllDigits(fraction)
    ensures DigitsOf(whole + "." + fraction) == whole + fraction
  {
    DigitsOfAllDigits(whole);
    DigitsOfAllDigits(fraction);
    DigitsOfConcat(whole, ".");
    assert DigitsOf(".") == [];
    assert DigitsOf(whole + ".") == whole;
    DigitsOfConcat(whole + ".", fraction);
  }

  /** Text starting with a digit and ending in a letter, without the two
      no-break spaces, is its own cleaned form. */
  lemma CleanedPlain(value: string)
    requires |value| >= 2 && IsDigit(value[0]) && SuffixLetter(value[|value| - 1]).Some?
    requires '\U{202F}' !in value && '\U{A0}' !in value
    ensures Cleaned(value) == value
  {
    StripSpaceUnchanged(value);
    ReplaceAbsent(value, '\U{202F}', ' ');
    ReplaceAbsent(value, '\U{A0}', ' ');
  }
}
