/** The few pieces of java.lang that the bootstrap code relies on: nullable
    strings and their string conversion, and the decimal parse/print pair
    Integer.valueOf / Integer.toString (Long.toString for the pid). */
module JavaLang {

  /** A nullable Java reference: None stands for null. */
  datatype Option<T> = None | Some(value: T)

  /** Java's string conversion of a possibly-null String, as done by `+` and
      by PrintStream.println: null becomes the four letters "null". */
  function StringOf(s: Option<string>): string
  {
    match s
    case None => "null"
    case Some(v) => v
  }

  /** System.getProperty: the value of a key, or null when it is unset. */
  function Lookup(props: map<string, string>, key: string): Option<string>
  {
    if key in props then Some(props[key]) else None
  }

  // ---------------------------------------------------------------------
  // 32-bit signed range

  const MinInt: int := -0x8000_0000
  const MaxInt: int := 0x7fff_ffff

  predicate InIntRange(n: int) { MinInt <= n <= MaxInt }

  // ---------------------------------------------------------------------
  // Decimal digits (ASCII only)

  predicate IsDigit(c: char) { '0' <= c <= '9' }

  predicate AllDigits(s: string) { forall i :: 0 <= i < |s| ==> IsDigit(s[i]) }

  function DigitValue(c: char): nat
    requires IsDigit(c)
  {
    c as int - '0' as int
  }

  function DigitChar(d: nat): (c: char)
    requires d < 10
    ensures IsDigit(c) && DigitValue(c) == d
  {
    ('0' as int + d) as char
  }

  /** The value of a string of decimal digits, most significant first. */
  function DigitsValue(s: string): nat
    requires AllDigits(s)
    decreases |s|
  {
    if s == [] then 0 else 10 * DigitsValue(s[..|s| - 1]) + DigitValue(s[|s| - 1])
  }

  /** A digit string with no redundant leading zero: "0", "7", "120", not "007". */
  predicate CanonicalDigits(s: string)
  {
    |s| > 0 && AllDigits(s) && (s[0] == '0' ==> |s| == 1)
  }

  /** The form Integer.toString produces: canonical digits, optionally
      preceded by '-' in front of a non-zero magnitude. */
  predicate IsCanonical(s: string)
  {
    CanonicalDigits(s) || (|s| >= 2 && s[0] == '-' && s[1] != '0' && CanonicalDigits(s[1..]))
  }

  // ---------------------------------------------------------------------
  // Printing: Long.toString / Integer.toString

  /** Decimal text of a non-negative number. */
  function NatToString(n: nat): (s: string)
    ensures CanonicalDigits(s)
    ensures s[0] == '0' <==> n == 0
    decreases n
  {
    if n < 10 then [DigitChar(n)] else NatToString(n / 10) + [DigitChar(n % 10)]
  }

  /** Decimal text of any integer: '-' and the magnitude when negative. */
  function IntToString(n: int): string
  {
    if n < 0 then "-" + NatToString(-n) else NatToString(n)
  }

  // ---------------------------------------------------------------------
  // Parsing: Integer.valueOf(String), radix 10

  /** Integer.valueOf(s) for a non-null s: an optional '+' or '-', then at
      least one decimal digit and nothing else, with the value inside the
      32-bit signed range. None stands for NumberFormatException. */
  function ParseInt(s: string): Option<int>
  {
    if s == [] then None
    else
      var digits := if s[0] == '-' || s[0] == '+' then s[1..] else s;
      if digits == [] || !AllDigits(digits) then None
      else
        var magnitude: int := DigitsValue(digits);
        var v := if s[0] == '-' then -magnitude else magnitude;
        if InIntRange(v) then Some(v) else None
  }

  /** Integer.toString(Integer.valueOf(s)): the parse/print round trip that
      normalises a numeric text, or None when the text does not parse. */
  function Canonicalize(s: string): Option<string>
  {
    match ParseInt(s)
    case None => None
    case Some(v) => Some(IntToString(v))
  }

  // ---------------------------------------------------------------------
  // Lemmas

  /** Reading back the printed digits gives the number. */
  lemma {:induction false} DigitsValueOfNatToString(n: nat)
    ensures DigitsValue(NatToString(n)) == n
    decreases n
  {
    var s := NatToString(n);
    if n < 10 {
      assert s[..|s| - 1] == [];
    } else {
      DigitsValueOfNatToString(n / 10);
      assert s[..|s| - 1] == NatToString(n / 10);
    }
  }

  /** A digit string whose first digit is not '0' has a positive value. */
  lemma {:induction false} LeadingDigitPositive(s: string)
    requires |s| > 0 && AllDigits(s) && s[0] != '0'
    ensures DigitsValue(s) > 0
    decreases |s|
  {
    if |s| > 1 {
      LeadingDigitPositive(s[..|s| - 1]);
    }
  }

  /** Printing the value of canonical digits gives those digits back. */
  lemma {:induction false} NatToStringOfDigits(s: string)
    requires CanonicalDigits(s)
    ensures NatToString(DigitsValue(s)) == s
    decreases |s|
  {
    var p := s[..|s| - 1];
    var last := s[|s| - 1];
    if |s| == 1 {
      assert p == [];
      assert DigitChar(DigitValue(last)) == last;
    } else {
      assert p[0] == s[0] != '0';
      LeadingDigitPositive(p);
      NatToStringOfDigits(p);
      var v := DigitsValue(s);
      assert v == 10 * DigitsValue(p) + DigitValue(last);
      assert v / 10 == DigitsValue(p) && v % 10 == DigitValue(last);
      assert DigitChar(DigitValue(last)) == last;
      assert s == p + [last];
    }
  }

  /** Parse after print: every 32-bit value survives Integer.toString
      followed by Integer.valueOf, and the printed text is canonical. */
  lemma ParseIntToString(n: int)
    requires InIntRange(n)
    ensures ParseInt(IntToString(n)) == Some(n)
    ensures IsCanonical(IntToString(n))
  {
    if n < 0 {
      var m := NatToString(-n);
      DigitsValueOfNatToString(-n);
      assert ("-" + m)[1..] == m;
    } else {
      DigitsValueOfNatToString(n);
    }
  }

  /** Print after parse: a canonical text that parses is printed back to
      itself, so canonical texts and 32-bit values are in one-to-one
      correspondence. */
  lemma PrintParsedCanonical(s: string)
    requires IsCanonical(s) && ParseInt(s).Some?
    ensures IntToString(ParseInt(s).value) == s
  {
    if CanonicalDigits(s) {
      NatToStringOfDigits(s);
    } else {
      var d := s[1..];
      LeadingDigitPositive(d);
      NatToStringOfDigits(d);
      assert s == "-" + d;
    }
  }

  /** The normalised text is canonical, denotes the same value, and
      normalising it again changes nothing ("+05" and "5" both give "5"). */
  lemma CanonicalizeIdempotent(s: string)
    requires Canonicalize(s).Some?
    ensures IsCanonical(Canonicalize(s).value)
    ensures ParseInt(Canonicalize(s).value) == ParseInt(s)
    ensures Canonicalize(Canonicalize(s).value) == Canonicalize(s)
  {
    ParseIntToString(ParseInt(s).value);
  }

  /** Worked case: a sign and leading zeros are dropped. */
  lemma CanonicalizeSignAndZeros()
    ensures Canonicalize("+05") == Some("5")
    ensures Canonicalize("-0") == Some("0")
  {
    assert "+05"[1..] == "05";
    assert DigitsValue("05") == 5 by {
      assert "05"[..1] == "0";
      assert "0"[..0] == "";
    }
    assert "-0"[1..] == "0";
    assert DigitsValue("0") == 0 by { assert "0"[..0] == ""; }
  }

  /** Worked case: texts that are not a signed run of digits are rejected. */
  lemma ParseIntRejectsMalformed()
    ensures ParseInt("") == None && ParseInt("-") == None && ParseInt("+") == None
    ensures ParseInt("1e3") == None && ParseInt(" 1") == None
  {
    assert "-"[1..] == "" && "+"[1..] == "";
    assert !IsDigit("1e3"[1]);
    assert !IsDigit(" 1"[0]);
  }

  /** Worked case: the 32-bit bounds are exact. */
  lemma ParseIntBounds()
    ensures ParseInt("2147483648") == None
    ensures ParseInt("-2147483648") == Some(MinInt)
  {
    assert NatToString(2) == "2";
    assert NatToString(21) == "21";
    assert NatToString(214) == "214";
    assert NatToString(2147) == "2147";
    assert NatToString(21474) == "21474";
    assert NatToString(214748) == "214748";
    assert NatToString(2147483) == "2147483";
    assert NatToString(21474836) == "21474836";
    assert NatToString(214748364) == "214748364";
    assert NatToString(2147483648) == "2147483648";
    DigitsValueOfNatToString(2147483648);
    assert "-2147483648"[1..] == "2147483648";
  }
}
