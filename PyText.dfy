/** The Python string built-ins the ingester and the request validators rely on:
    `str()` of an integer, `int()` of a string with the whitespace it trims, `str.lstrip`,
    `str.split("/")[-1]` and `str.lower`. */
module PyText {
  import opened Base

  predicate IsDigit(c: char) {
    '0' <= c <= '9'
  }

  function DigitValue(c: char): (d: nat)
    requires IsDigit(c)
    ensures d < 10
  {
    c as int - '0' as int
  }

  function DigitChar(d: nat): (c: char)
    requires d < 10
    ensures IsDigit(c) && DigitValue(c) == d
  {
    ('0' as int + d) as char
  }

  /** The decimal digits of a natural number, without leading zeros. */
  function NatToString(n: nat): (s: string)
    ensures |s| > 0
    ensures forall k :: 0 <= k < |s| ==> IsDigit(s[k])
  {
    if n < 10 then [DigitChar(n)] else NatToString(n / 10) + [DigitChar(n % 10)]
  }

  /** Python's `str(n)` for an integer `n` of at most `MaxStrDigits` digits. */
  function IntToString(n: int): string {
    if n < 0 then "-" + NatToString(-n) else NatToString(n)
  }

  /** The whitespace `int()` trims around its argument: the ASCII space, tab,
      line feed, vertical tab, form feed and carriage return, and every
      non-ASCII character `str.isspace()` accepts. The ASCII separators
      U+001C to U+001F are not trimmed, although `str.isspace()` accepts them. */
  predicate IntSpace(c: char) {
    || ('\U{9}' <= c <= '\U{D}') || c == ' '
    || c == '\U{85}' || c == '\U{A0}' || c == '\U{1680}'
    || ('\U{2000}' <= c <= '\U{200A}')
    || c == '\U{2028}' || c == '\U{2029}' || c == '\U{202F}' || c == '\U{205F}' || c == '\U{3000}'
  }

  function TrimStart(s: string): string {
    if |s| > 0 && IntSpace(s[0]) then TrimStart(s[1..]) else s
  }

  function TrimEnd(s: string): string {
    if |s| > 0 && IntSpace(s[|s| - 1]) then TrimEnd(s[..|s| - 1]) else s
  }

  /** The argument of `int()` without its surrounding whitespace. */
  function Trim(s: string): string {
    TrimEnd(TrimStart(s))
  }

  /** `sys.get_int_max_str_digits()` by default: `int()` of a decimal string
      with more digits raises `ValueError`, and so does `str()` of an integer
      with more digits. */
  const MaxStrDigits: nat := 4300

  /** The digit strings `int()` accepts in base 10: ASCII digits, with single
      underscores allowed between two digits. */
  predicate IsDigitString(b: string) {
    |b| > 0 && forall k :: 0 <= k < |b| ==> DigitOrSeparator(b, k)
  }

  /** Position `k` holds a digit, or an underscore between two digits. */
  predicate DigitOrSeparator(b: string, k: nat)
    requires k < |b|
  {
    IsDigit(b[k]) || (0 < k < |b| - 1 && b[k] == '_' && IsDigit(b[k - 1]) && IsDigit(b[k + 1]))
  }

  /** The value of a digit string, underscores ignored. */
  function DigitsValue(b: string): nat {
    if b == [] then 0
    else if IsDigit(b[|b| - 1]) then DigitsValue(b[..|b| - 1]) * 10 + DigitValue(b[|b| - 1])
    else DigitsValue(b[..|b| - 1])
  }

  /** The number of digits of a digit string, underscores not counted. */
  function DigitCount(b: string): (n: nat)
    ensures n <= |b|
  {
    if b == [] then 0
    else DigitCount(b[..|b| - 1]) + (if IsDigit(b[|b| - 1]) then 1 else 0)
  }

  /** The digit strings `int()` reads: at most `MaxStrDigits` digits. */
  predicate Readable(b: string) {
    IsDigitString(b) && DigitCount(b) <= MaxStrDigits
  }

  lemma DigitStringStartsWithDigit(b: string)
    requires IsDigitString(b)
    ensures IsDigit(b[0])
  {
    assert DigitOrSeparator(b, 0);
  }

  /** Python's `int(s)` for a string `s`: `None` stands for the `ValueError` it raises. */
  function ParseInt(s: string): (r: Option<int>)
    ensures r.Some? ==> |Trim(s)| > 0
    ensures r.Some? <==>
      Readable(Trim(s)) || (|Trim(s)| > 0 && (Trim(s)[0] == '+' || Trim(s)[0] == '-') && Readable(Trim(s)[1..]))
  {
    var t := Trim(s);
    if |t| > 0 && (t[0] == '+' || t[0] == '-') then
      assert !Readable(t) by {
        if IsDigitString(t) {
          DigitStringStartsWithDigit(t);
        }
      }
      if Readable(t[1..]) then
        var v: int := DigitsValue(t[1..]);
        Some(if t[0] == '-' then -v else v)
      else None
    else if Readable(t) then Some(DigitsValue(t))
    else None
  }

  /** A string of digits only counts every character. */
  lemma {:induction false} DigitCountOfDigits(b: string)
    requires forall k :: 0 <= k < |b| ==> IsDigit(b[k])
    ensures DigitCount(b) == |b|
  {
    if b != [] {
      DigitCountOfDigits(b[..|b| - 1]);
    }
  }

  /** The number of decimal digits of `|n|`. */
  function DigitsOf(n: int): nat {
    |NatToString(if n < 0 then -n else n)|
  }

  lemma {:induction false} NatToStringValue(n: nat)
    ensures DigitsValue(NatToString(n)) == n
  {
    var s := NatToString(n);
    if n >= 10 {
      NatToStringValue(n / 10);
      assert s[..|s| - 1] == NatToString(n / 10);
    }
  }

  lemma NatToStringIsDigitString(n: nat)
    ensures IsDigitString(NatToString(n))
  {
  }

  /** Reading back what `str()` writes gives the number again: `int(str(n)) == n`
      for every integer `str()` can write. */
  lemma ParseIntOfString(n: int)
    requires DigitsOf(n) <= MaxStrDigits
    ensures ParseInt(IntToString(n)) == Some(n)
  {
    var m: nat := if n < 0 then -n else n;
    var d := NatToString(m);
    NatToStringValue(m);
    NatToStringIsDigitString(m);
    DigitCountOfDigits(d);
    assert Readable(d);
    var s := IntToString(n);
    TrimUnspaced(s);
    if n < 0 {
      assert s[1..] == d;
    } else {
      assert s == d;
    }
  }

  /** A string that neither starts nor ends with whitespace is not trimmed. */
  lemma TrimUnspaced(s: string)
    requires |s| > 0 && !IntSpace(s[0]) && !IntSpace(s[|s| - 1])
    ensures Trim(s) == s
  {
    assert TrimStart(s) == s;
  }

  function Pow10(k: nat): (p: nat)
    ensures p >= 1
  {
    if k == 0 then 1 else 10 * Pow10(k - 1)
  }

  /** A digit string's value is below ten to the number of its digits. */
  lemma {:induction false} DigitsValueBound(b: string)
    ensures DigitsValue(b) < Pow10(DigitCount(b))
  {
    if b != [] {
      var init := b[..|b| - 1];
      DigitsValueBound(init);
      if IsDigit(b[|b| - 1]) {
        var v := DigitsValue(init);
        var p := Pow10(DigitCount(init));
        assert v + 1 <= p;
        assert v * 10 + 10 <= p * 10;
      }
    }
  }

  /** A number below ten to the `k` has at most `k` digits (and always one). */
  lemma {:induction false} NatToStringLength(n: nat, k: nat)
    requires n < Pow10(k)
    ensures |NatToString(n)| <= if k == 0 then 1 else k
  {
    if n >= 10 {
      assert k >= 2 && n / 10 < Pow10(k - 1);
      NatToStringLength(n / 10, k - 1);
    }
  }

  /** Every integer `int()` reads has at most `MaxStrDigits` digits, so
      `str()` can write it back. */
  lemma ParsedDigits(s: string)
    requires ParseInt(s).Some?
    ensures DigitsOf(ParseInt(s).value) <= MaxStrDigits
  {
    var t := Trim(s);
    var b := if |t| > 0 && (t[0] == '+' || t[0] == '-') then t[1..] else t;
    assert Readable(b);
    DigitsValueBound(b);
    NatToStringLength(DigitsValue(b), DigitCount(b));
    var v := ParseInt(s).value;
    var w: int := DigitsValue(b);
    assert v == w || v == -w;
  }

  /** A digit string longer than the limit is refused, however small its value. */
  lemma TooManyDigits(zeros: nat)
    requires zeros > MaxStrDigits
    ensures ParseInt(seq(zeros, k => '0')) == None
  {
    var b := seq(zeros, k => '0');
    DigitCountOfDigits(b);
    TrimUnspaced(b);
  }

  /** Trimming the end keeps a first character that is not whitespace. */
  lemma {:induction false} TrimEndKeepsFirst(s: string)
    requires |s| > 0 && !IntSpace(s[0])
    ensures |TrimEnd(s)| > 0 && TrimEnd(s)[0] == s[0]
  {
    if IntSpace(s[|s| - 1]) {
      TrimEndKeepsFirst(s[..|s| - 1]);
    }
  }

  /** A string that starts with one of the separators U+001C to U+001F is
      not an integer, whatever follows. */
  lemma SeparatorNotTrimmed(c: char, s: string)
    requires '\U{1C}' <= c <= '\U{1F}'
    ensures ParseInt([c] + s) == None
  {
    var t := [c] + s;
    TrimEndKeepsFirst(t);
    assert Trim(t)[0] == c;
    if IsDigitString(Trim(t)) {
      DigitStringStartsWithDigit(Trim(t));
    }
  }

  /** `str.lstrip(c)`: drops every leading occurrence of `c`. */
  function LStrip(s: string, c: char): (r: string)
    ensures |r| > 0 ==> r[0] != c
    ensures |r| <= |s| && r == s[|s| - |r|..]
    ensures forall k :: 0 <= k < |s| - |r| ==> s[k] == c
  {
    if |s| > 0 && s[0] == c then LStrip(s[1..], c) else s
  }

  /** `s.split("/")[-1]`: the text after the last slash, or all of `s`. */
  function LastSegment(s: string): (r: string)
    ensures '/' !in r
    ensures |r| <= |s| && r == s[|s| - |r|..]
    ensures |r| < |s| ==> s[|s| - |r| - 1] == '/'
  {
    if s == [] then []
    else if s[|s| - 1] == '/' then []
    else LastSegment(s[..|s| - 1]) + [s[|s| - 1]]
  }

  /** A path of segments ending in one without a slash splits back to that segment. */
  lemma {:induction false} LastSegmentAfterSlash(prefix: string, segment: string)
    requires '/' !in segment
    ensures LastSegment(prefix + "/" + segment) == segment
  {
    var s := prefix + "/" + segment;
    if segment == [] {
      assert s[|s| - 1] == '/';
    } else {
      var init := segment[..|segment| - 1];
      assert '/' !in init;
      LastSegmentAfterSlash(prefix, init);
      assert s[..|s| - 1] == prefix + "/" + init;
      assert s[|s| - 1] == segment[|segment| - 1];
      assert init + [segment[|segment| - 1]] == segment;
    }
  }

  predicate IsUpper(c: char) {
    'A' <= c <= 'Z'
  }

  /** The lower case of an ASCII capital: the small letter at the same place
      in the alphabet; any other character is its own lower case. */
  function LowerChar(c: char): (l: char)
    ensures !IsUpper(l)
    ensures IsUpper(c) ==> 'a' <= l <= 'z' && l as int - 'a' as int == c as int - 'A' as int
    ensures !IsUpper(c) ==> l == c
  {
    if IsUpper(c) then (c as int + 32) as char else c
  }

  /** `str.lower()` on ASCII letters; other characters are kept. The result
      has no capital left, and each capital becomes its small letter. */
  function Lower(s: string): (r: string)
    ensures |r| == |s|
    ensures forall k :: 0 <= k < |r| ==> !IsUpper(r[k])
    ensures forall k :: 0 <= k < |s| && !IsUpper(s[k]) ==> r[k] == s[k]
    ensures forall k :: 0 <= k < |s| && IsUpper(s[k]) ==>
      'a' <= r[k] <= 'z' && r[k] as int - 'a' as int == s[k] as int - 'A' as int
  {
    seq(|s|, k requires 0 <= k < |s| => LowerChar(s[k]))
  }
}
