/** The text that `list_to_explicit_bit_vect` in `bin/fingerprinter.py` hands
    to RDKit: every list element converted with Python's `str` and the
    pieces joined with no separator. For a list of 0s and 1s this is one
    '0' or '1' character per element; for other integers the pieces run
    together, and the encoding stops being reversible. */
module BitString {
  import opened Outcomes

  /** The decimal digit character of a value 0..9. */
  function DigitChar(d: nat): char
    requires d < 10
  {
    "0123456789"[d]
  }

  predicate IsDigit(c: char)
  {
    '0' <= c <= '9'
  }

  /** The value of a decimal digit character. */
  function DigitValue(c: char): (d: nat)
    requires IsDigit(c)
    ensures d < 10 && DigitChar(d) == c
  {
    (c as int - '0' as int) as nat
  }

  /** The decimal digits of a natural number, most significant first, with
      no leading zero. */
  function Digits(n: nat): (s: string)
    ensures |s| > 0
    ensures forall i :: 0 <= i < |s| ==> IsDigit(s[i])
    decreases n
  {
    if n < 10 then [DigitChar(n)] else Digits(n / 10) + [DigitChar(n % 10)]
  }

  /** Python's `str` on an integer: a minus sign for negatives, then the digits. */
  function PyStr(n: int): (s: string)
    ensures |s| > 0
    ensures s[0] == '-' <==> n < 0
    ensures forall i :: 0 < i < |s| ==> IsDigit(s[i])
    ensures n >= 0 ==> forall i :: 0 <= i < |s| ==> IsDigit(s[i])
  {
    if n < 0 then "-" + Digits(-n) else Digits(n)
  }

  /** The number a string of decimal digits denotes. */
  function DecimalValue(s: string): nat
    requires forall i :: 0 <= i < |s| ==> IsDigit(s[i])
  {
    if |s| == 0 then 0 else DecimalValue(s[..|s| - 1]) * 10 + DigitValue(s[|s| - 1])
  }

  /** Reading back the digits of `n` gives `n`, and only zero is written
      with a leading zero. */
  lemma {:induction false} DigitsRoundTrip(n: nat)
    ensures DecimalValue(Digits(n)) == n
    ensures Digits(n)[0] == '0' <==> n == 0
    decreases n
  {
    if n >= 10 {
      DigitsRoundTrip(n / 10);
      var s := Digits(n);
      assert s[..|s| - 1] == Digits(n / 10);
      assert s[0] == Digits(n / 10)[0];
    }
  }

  /** `"".join(map(str, fp_list))`. */
  function Join(xs: seq<int>): (s: string)
    ensures |s| >= |xs|
    ensures forall i :: 0 <= i < |s| ==> IsDigit(s[i]) || s[i] == '-'
    ensures (forall i :: 0 <= i < |xs| ==> xs[i] >= 0) ==> forall i :: 0 <= i < |s| ==> IsDigit(s[i])
  {
    if |xs| == 0 then "" else PyStr(xs[0]) + Join(xs[1..])
  }

  /** A list of 0s and 1s. */
  predicate IsBits(xs: seq<int>)
  {
    forall i :: 0 <= i < |xs| ==> xs[i] == 0 || xs[i] == 1
  }

  /** A string of '0' and '1' characters. */
  predicate IsBitText(s: string)
  {
    forall i :: 0 <= i < |s| ==> s[i] == '0' || s[i] == '1'
  }

  /** For 0/1 input the string has one character per element: '1' exactly
      where the element is 1 and '0' exactly where it is 0. */
  lemma {:induction false} JoinBits(xs: seq<int>)
    requires IsBits(xs)
    ensures |Join(xs)| == |xs|
    ensures forall i :: 0 <= i < |xs| ==> (Join(xs)[i] == '1' <==> xs[i] == 1)
    ensures forall i :: 0 <= i < |xs| ==> (Join(xs)[i] == '0' <==> xs[i] == 0)
    ensures IsBitText(Join(xs))
  {
    if |xs| > 0 {
      JoinBits(xs[1..]);
      assert PyStr(xs[0]) == if xs[0] == 1 then "1" else "0";
      forall i | 1 <= i < |xs| ensures Join(xs)[i] == Join(xs[1..])[i - 1] && xs[i] == xs[1..][i - 1] {
      }
    }
  }

  /** Read a '0'/'1' string back into a list of bits; any other character
      makes it unreadable. */
  function ParseBits(s: string): (r: Option<seq<int>>)
    ensures r.Some? <==> IsBitText(s)
    ensures r.Some? ==> |r.value| == |s| && IsBits(r.value)
  {
    if |s| == 0 then Some([])
    else if s[0] != '0' && s[0] != '1' then None
    else
      match ParseBits(s[1..])
      case None => None
      case Some(rest) => Some([if s[0] == '1' then 1 else 0] + rest)
  }

  /** Decoding the encoding of a bit list gives the list back. */
  lemma {:induction false} ParseJoin(xs: seq<int>)
    requires IsBits(xs)
    ensures ParseBits(Join(xs)) == Some(xs)
  {
    if |xs| > 0 {
      ParseJoin(xs[1..]);
      JoinBits(xs);
      var s := Join(xs);
      assert PyStr(xs[0]) == if xs[0] == 1 then "1" else "0";
      assert s[1..] == Join(xs[1..]);
      assert xs == [xs[0]] + xs[1..];
    }
  }

  /** Encoding a decoded bit string gives the string back. */
  lemma {:induction false} JoinParse(s: string)
    requires IsBitText(s)
    ensures Join(ParseBits(s).value) == s
  {
    if |s| > 0 {
      JoinParse(s[1..]);
      var xs := ParseBits(s).value;
      assert xs[1..] == ParseBits(s[1..]).value;
      assert PyStr(xs[0]) == [s[0]];
      assert s == [s[0]] + s[1..];
    }
  }

  /** Outside 0/1 the encoding is not injective: `[10]` and `[1, 0]` give
      the same text. */
  lemma JoinNotInjective()
    ensures Join([10]) == Join([1, 0]) == "10"
  {
    assert Digits(10) == Digits(1) + [DigitChar(0)];
    assert Join([1, 0]) == PyStr(1) + Join([0]);
  }
}
