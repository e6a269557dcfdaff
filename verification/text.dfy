/** String building used by the workout description and the workout id:
    decimal rendering of numbers, the month names, and upper-casing the first
    letter of a word. */
module Text {

  predicate IsDigit(c: char) {
    '0' <= c <= '9'
  }

  predicate AllDigits(s: string) {
    forall i :: 0 <= i < |s| ==> IsDigit(s[i])
  }

  function DigitChar(d: int): (c: char)
    requires 0 <= d < 10
    ensures IsDigit(c) && c as int - '0' as int == d
  {
    ('0' as int + d) as char
  }

  /** Decimal rendering of a natural number, as `${n}` and `n + ''` give it
      for n below 10^21 (from 10^21 on JavaScript switches to exponential
      notation, such as "1e+21"). */
  function NatToString(n: nat): (s: string)
    ensures |s| > 0 && AllDigits(s)
    ensures n < 10 <==> |s| == 1
    decreases n
  {
    if n < 10 then [DigitChar(n)] else NatToString(n / 10) + [DigitChar(n % 10)]
  }

  /** Value of a string of decimal digits; the inverse of NatToString. */
  function DigitsValue(s: string): nat
    requires AllDigits(s)
  {
    if |s| == 0 then 0 else DigitsValue(s[..|s| - 1]) * 10 + (s[|s| - 1] as int - '0' as int)
  }

  lemma {:induction false} DigitsRoundTrip(n: nat)
    ensures DigitsValue(NatToString(n)) == n
    decreases n
  {
    if n >= 10 {
      var s := NatToString(n);
      assert s[..|s| - 1] == NatToString(n / 10);
      DigitsRoundTrip(n / 10);
    }
  }

  /** 10^k. */
  function Pow10(k: nat): (p: nat)
    ensures p >= 1
  {
    if k == 0 then 1 else 10 * Pow10(k - 1)
  }

  lemma {:induction false} DecimalLength(n: nat, k: nat)
    requires k >= 1
    ensures n < Pow10(k) ==> |NatToString(n)| <= k
    decreases k
  {
    if n >= 10 && n < Pow10(k) {
      DecimalLength(n / 10, k - 1);
    }
  }

  /** A number of at least 10^k renders in more than k digits. */
  lemma {:induction false} LongRendering(n: nat, k: nat)
    requires n >= Pow10(k)
    ensures |NatToString(n)| > k
    decreases k
  {
    if k > 0 {
      LongRendering(n / 10, k - 1);
    }
  }

  lemma MulAtLeast(m: nat, d: nat)
    requires d >= 1
    ensures m * d >= m
  {
    assert m * d == m + m * (d - 1);
  }

  /** Quotient and remainder are the only ones with n == m * a + x, 0 <= x < m. */
  lemma ModUnique(n: nat, m: nat, a: nat, x: nat)
    requires m > 0 && n == m * a + x && x < m
    ensures n % m == x && n / m == a
  {
    var q, r := n / m, n % m;
    assert n == m * q + r;
    if q > a {
      assert m * q == m * a + m * (q - a);
      MulAtLeast(m, q - a);
      assert false;
    } else if q < a {
      assert m * a == m * q + m * (a - q);
      MulAtLeast(m, a - q);
      assert false;
    }
  }

  /** n modulo 10p is n / 10 modulo p shifted one digit, plus the last digit. */
  lemma LastDigitStep(n: nat, p: nat)
    requires p >= 1
    ensures ((n / 10) % p) * 10 + n % 10 == n % (10 * p)
  {
    var q, r := n / 10, n % 10;
    var a, b := q / p, q % p;
    assert q == p * a + b;
    assert 10 * q == (10 * p) * a + 10 * b;
    assert n == (10 * p) * a + (10 * b + r);
    ModUnique(n, 10 * p, a, 10 * b + r);
  }

  /** The last k digits of a digit string spell its value modulo 10^k. */
  lemma {:induction false} SuffixValue(s: string, k: nat)
    requires AllDigits(s) && k <= |s|
    ensures DigitsValue(s[|s| - k..]) == DigitsValue(s) % Pow10(k)
    decreases |s|
  {
    if k == 0 {
      assert s[|s|..] == [];
    } else {
      var init := s[..|s| - 1];
      var u := s[|s| - k..];
      assert u[..|u| - 1] == init[|init| - (k - 1)..];
      SuffixValue(init, k - 1);
      var n := DigitsValue(s);
      ModUnique(n, 10, DigitsValue(init), s[|s| - 1] as int - '0' as int);
      LastDigitStep(n, Pow10(k - 1));
    }
  }

  /** Digit strings of one length with one value are the same string. */
  lemma {:induction false} DigitsInjective(s: string, t: string)
    requires AllDigits(s) && AllDigits(t) && |s| == |t| && DigitsValue(s) == DigitsValue(t)
    ensures s == t
    decreases |s|
  {
    if |s| > 0 {
      var n := DigitsValue(s);
      var i := |s| - 1;
      ModUnique(n, 10, DigitsValue(s[..i]), s[i] as int - '0' as int);
      ModUnique(n, 10, DigitsValue(t[..i]), t[i] as int - '0' as int);
      DigitsInjective(s[..i], t[..i]);
      assert s == s[..i] + [s[i]] && t == t[..i] + [t[i]];
    }
  }

  /** `String.prototype.slice(-k)`: the last k characters, or all of s when
      it is shorter. For k = 0 the argument is -0, which counts as 0, so the
      whole string is kept. */
  function SliceLast(s: string, k: nat): (r: string)
    ensures |r| == if k == 0 || |s| < k then |s| else k
    ensures k == 0 || |s| <= k ==> r == s
    ensures forall i :: 0 <= i < |r| ==> r[i] == s[|s| - |r| + i]
  {
    if k == 0 || |s| <= k then s else s[|s| - k..]
  }

  /** The `months` table of script.js:19. */
  const Months: seq<string> := ["January", "February", "March", "April", "May", "June",
                                "July", "August", "September", "October", "November", "December"]

  function MonthName(m: int): (name: string)
    requires 0 <= m < 12
    ensures |name| >= 3 && name == Months[m]
  {
    Months[m]
  }

  /** The month whose name starts with the three letters abbr, or 12 when
      there is none. */
  function MonthOfAbbreviation(abbr: string): (m: int)
    ensures 0 <= m <= 12
  {
    if abbr == "Jan" then 0 else if abbr == "Feb" then 1 else if abbr == "Mar" then 2
    else if abbr == "Apr" then 3 else if abbr == "May" then 4 else if abbr == "Jun" then 5
    else if abbr == "Jul" then 6 else if abbr == "Aug" then 7 else if abbr == "Sep" then 8
    else if abbr == "Oct" then 9 else if abbr == "Nov" then 10 else if abbr == "Dec" then 11
    else 12
  }

  lemma MonthAbbreviation(m: int)
    requires 0 <= m < 12
    ensures MonthOfAbbreviation(MonthName(m)[..3]) == m
  {
    assert Months[0][..3] == "Jan";
    assert Months[1][..3] == "Feb";
    assert Months[2][..3] == "Mar";
    assert Months[3][..3] == "Apr";
    assert Months[4][..3] == "May";
    assert Months[5][..3] == "Jun";
    assert Months[6][..3] == "Jul";
    assert Months[7][..3] == "Aug";
    assert Months[8][..3] == "Sep";
    assert Months[9][..3] == "Oct";
    assert Months[10][..3] == "Nov";
    assert Months[11][..3] == "Dec";
  }

  /** No month name followed by a space starts a string that begins with a
      different month name: the twelve names differ in their first three
      letters. */
  lemma MonthNamesDistinguishable(i: int, m: int, tail: string)
    requires 0 <= i < 12 && 0 <= m < 12
    requires MonthName(i) + " " <= MonthName(m) + tail
    ensures i == m
  {
    var a, b := MonthName(i) + " ", MonthName(m) + tail;
    assert a[..3] == b[..3];
    assert a[..3] == MonthName(i)[..3];
    assert b[..3] == MonthName(m)[..3];
    MonthAbbreviation(i);
    MonthAbbreviation(m);
  }

  /** `c.toUpperCase()` on the ASCII letters the type names use. */
  function UpperCase(c: char): (u: char)
    ensures 'a' <= c <= 'z' ==> 'A' <= u <= 'Z' && u as int == c as int - 32
    ensures !('a' <= c <= 'z') ==> u == c
  {
    if 'a' <= c <= 'z' then (c as int - 32) as char else c
  }

  /** `s[0].toUpperCase() + s.slice(1)` (script.js:21). */
  function Capitalize(s: string): (r: string)
    requires |s| > 0
    ensures |r| == |s| && r[0] == UpperCase(s[0]) && r[1..] == s[1..]
  {
    [UpperCase(s[0])] + s[1..]
  }
}
