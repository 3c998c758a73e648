/**
 * The few JavaScript string and number primitives the components rely on:
 * `String.prototype.trim`, ASCII case mapping, `substring(0, n)`,
 * `replace` with a string pattern, `parseInt(s, 10)`, `Number(s)` and
 * `String(n)`. Numbers are integers or NaN (see `NumberValue`).
 */
module Text {

  /** The characters `trim` removes: ECMAScript WhiteSpace and LineTerminator. */
  predicate IsSpace(c: char) {
    c == ' ' || c == '\t' || c == '\n' || c == '\r' || c == '\U{000B}' || c == '\U{000C}'
    || c == '\U{00A0}' || c == '\U{FEFF}' || c == '\U{1680}' || ('\U{2000}' <= c <= '\U{200A}')
    || c == '\U{2028}' || c == '\U{2029}' || c == '\U{202F}' || c == '\U{205F}' || c == '\U{3000}'
  }

  predicate AllSpace(s: string) {
    forall i :: 0 <= i < |s| ==> IsSpace(s[i])
  }

  /** `s.trimStart()`. */
  function TrimStart(s: string): (r: string)
    ensures |r| <= |s| && r == s[|s| - |r|..]
    ensures AllSpace(s[..|s| - |r|])
    ensures r != [] ==> !IsSpace(r[0])
  {
    if s != [] && IsSpace(s[0]) then TrimStart(s[1..]) else s
  }

  /** `s.trimEnd()`. */
  function TrimEnd(s: string): (r: string)
    ensures |r| <= |s| && r == s[..|r|]
    ensures AllSpace(s[|r|..])
    ensures r != [] ==> !IsSpace(r[|r| - 1])
  {
    if s != [] && IsSpace(s[|s| - 1]) then TrimEnd(s[..|s| - 1]) else s
  }

  /** `s.trim()`: white space cut from both ends. The result is empty exactly
      when the string is white space only, and a string without white space at
      either end is its own trim. */
  function Trim(s: string): (r: string)
    ensures |r| <= |s|
    ensures r == [] <==> AllSpace(s)
    ensures r != [] ==> !IsSpace(r[0]) && !IsSpace(r[|r| - 1])
    ensures s != [] && !IsSpace(s[0]) && !IsSpace(s[|s| - 1]) ==> r == s
  {
    TrimPieces(s);
    var a := TrimStart(s);
    var r := TrimEnd(a);
    assert r != [] ==> r[0] == a[0];
    assert s != [] && !IsSpace(s[0]) && !IsSpace(s[|s| - 1]) ==> a == s;
    r
  }

  lemma {:induction false} TrimPieces(s: string)
    ensures TrimEnd(TrimStart(s)) == [] <==> AllSpace(s)
  {
    var a := TrimStart(s);
    var r := TrimEnd(a);
    var k := |s| - |a|;
    if r == [] {
      assert a[|r|..] == a;
      assert a == [];
      assert s[..k] == s;
    } else {
      assert r[0] == a[0];
      assert a[0] == s[k];
      assert !IsSpace(s[k]);
    }
  }

  /** `!s.trim()`: the string is empty or white space only. */
  predicate IsBlank(s: string) {
    Trim(s) == ""
  }

  function UpperChar(c: char): char {
    if 'a' <= c <= 'z' then (c as int - 'a' as int + 'A' as int) as char else c
  }

  function LowerChar(c: char): char {
    if 'A' <= c <= 'Z' then (c as int - 'A' as int + 'a' as int) as char else c
  }

  /** `s.toUpperCase()` on the ASCII letters. */
  function ToUpper(s: string): (r: string)
    ensures |r| == |s|
    ensures forall i :: 0 <= i < |s| ==> r[i] == UpperChar(s[i])
    ensures forall i :: 0 <= i < |r| ==> !('a' <= r[i] <= 'z')
  {
    seq(|s|, i requires 0 <= i < |s| => UpperChar(s[i]))
  }

  /** `s.toLowerCase()` on the ASCII letters. */
  function ToLower(s: string): (r: string)
    ensures |r| == |s|
    ensures forall i :: 0 <= i < |s| ==> r[i] == LowerChar(s[i])
    ensures forall i :: 0 <= i < |r| ==> !('A' <= r[i] <= 'Z')
  {
    seq(|s|, i requires 0 <= i < |s| => LowerChar(s[i]))
  }

  /** Upper-casing twice is upper-casing once. */
  lemma ToUpperIdempotent(s: string)
    ensures ToUpper(ToUpper(s)) == ToUpper(s)
  {
    var u := ToUpper(s);
    assert forall i :: 0 <= i < |u| ==> UpperChar(u[i]) == u[i];
  }

  /** `s.substring(0, n)`: the first `n` characters, or all of a shorter string. */
  function Prefix(s: string, n: nat): (r: string)
    ensures |r| == if |s| < n then |s| else n
    ensures r <= s
  {
    if |s| < n then s else s[..n]
  }

  /** The position of the first `c` in `s`. */
  function IndexOf(s: string, c: char): (i: nat)
    requires c in s
    ensures i < |s| && s[i] == c && c !in s[..i]
  {
    if s[0] == c then 0
    else
      var j := IndexOf(s[1..], c);
      assert s[..j + 1] == [s[0]] + s[1..][..j];
      j + 1
  }

  /** `s.replace(c, "")` with a one-character string pattern: only the first
      occurrence of `c` is removed. */
  function RemoveFirst(s: string, c: char): (r: string)
    ensures c !in s ==> r == s
    ensures c in s ==> exists i :: 0 <= i < |s| && s[i] == c && c !in s[..i] && r == s[..i] + s[i + 1..]
    ensures |r| == if c in s then |s| - 1 else |s|
  {
    if c in s then
      var i := IndexOf(s, c);
      s[..i] + s[i + 1..]
    else s
  }

  predicate IsDigit(c: char) {
    '0' <= c <= '9'
  }

  predicate AllDigits(s: string) {
    forall i :: 0 <= i < |s| ==> IsDigit(s[i])
  }

  function DigitValue(c: char): nat
    requires IsDigit(c)
  {
    c as int - '0' as int
  }

  function DigitChar(d: nat): (c: char)
    requires d < 10
    ensures IsDigit(c) && DigitValue(c) == d
  {
    ('0' as int + d) as char
  }

  /** The value of a string of decimal digits ("" has value 0). */
  function DigitsValue(s: string): nat
    requires AllDigits(s)
  {
    if s == [] then 0 else DigitsValue(s[..|s| - 1]) * 10 + DigitValue(s[|s| - 1])
  }

  /** `String(n)` for a natural number: its shortest decimal numeral. */
  function NatToString(n: nat): (s: string)
    ensures s != [] && AllDigits(s)
    ensures |s| > 1 ==> s[0] != '0'
    decreases n
  {
    if n < 10 then [DigitChar(n)] else NatToString(n / 10) + [DigitChar(n % 10)]
  }

  /** Reading back a rendered natural number gives the number. */
  lemma {:induction false} NatToStringValue(n: nat)
    ensures DigitsValue(NatToString(n)) == n
    decreases n
  {
    if n >= 10 {
      var s := NatToString(n);
      NatToStringValue(n / 10);
      assert s[..|s| - 1] == NatToString(n / 10);
    }
  }

  /** A JavaScript number as far as these components use one: an integer or NaN. */
  datatype NumberValue = Finite(n: int) | NaN

  /** `String(v)`. */
  function NumberToString(v: NumberValue): string {
    match v
    case NaN => "NaN"
    case Finite(i) => if i < 0 then NegativeNumeral(-i) else NatToString(i)
  }

  /** The numeral of `-n`: a minus sign before the digits of `n`. */
  function NegativeNumeral(n: nat): string {
    "-" + NatToString(n)
  }

  /** The longest prefix of `s` made of digits. */
  function DigitRun(s: string): (r: string)
    ensures r <= s && AllDigits(r)
    ensures |r| < |s| ==> !IsDigit(s[|r|])
  {
    if s != [] && IsDigit(s[0]) then [s[0]] + DigitRun(s[1..]) else []
  }

  /** The digits that follow an optional sign, and the sign. */
  function SignedDigits(s: string): (string, bool)
  {
    if s != [] && s[0] == '-' then (DigitRun(s[1..]), true)
    else if s != [] && s[0] == '+' then (DigitRun(s[1..]), false)
    else (DigitRun(s), false)
  }

  /** `parseInt(s, 10)`: after leading white space and an optional sign, the
      longest run of digits; NaN when there is none. Trailing text is ignored. */
  function ParseInt(s: string): (v: NumberValue)
    ensures v.NaN? <==> SignedDigits(TrimStart(s)).0 == []
  {
    var (digits, negative) := SignedDigits(TrimStart(s));
    if digits == [] then NaN
    else if negative then Finite(-(DigitsValue(digits) as int))
    else Finite(DigitsValue(digits))
  }

  /** The value of an integer numeral: an optional sign and at least one
      digit, nothing else; NaN for any other text. */
  function IntegerNumeral(t: string): (v: NumberValue)
    ensures AllDigits(t) && t != [] ==> v == Finite(DigitsValue(t))
  {
    var signed := t != [] && (t[0] == '-' || t[0] == '+');
    var body := if signed then t[1..] else t;
    if body == [] || !AllDigits(body) then NaN
    else if t[0] == '-' then Finite(-(DigitsValue(body) as int))
    else Finite(DigitsValue(body))
  }

  /** `Number(s)` restricted to integer numerals: blank text is 0, a trimmed
      integer numeral is its value, anything else is NaN. */
  function ToNumber(s: string): (v: NumberValue)
    ensures IsBlank(s) ==> v == Finite(0)
  {
    var t := Trim(s);
    if t == [] then Finite(0) else IntegerNumeral(t)
  }

  lemma {:induction false} DigitRunOfDigits(s: string, rest: string)
    requires AllDigits(s)
    requires rest == [] || !IsDigit(rest[0])
    ensures DigitRun(s + rest) == s
    decreases |s|
  {
    if s != [] {
      assert (s + rest)[1..] == s[1..] + rest;
      DigitRunOfDigits(s[1..], rest);
    } else {
      assert s + rest == rest;
    }
  }

  /** A rendered natural number starts with a digit, so `trimStart` keeps it whole. */
  lemma NatToStringTight(n: nat)
    ensures TrimStart(NatToString(n)) == NatToString(n)
  {
    var c := NatToString(n)[0];
    assert IsDigit(c);
    assert !IsSpace(c);
  }

  /** A rendered natural number carries no sign and is one run of digits. */
  lemma NatToStringUnsigned(n: nat)
    ensures SignedDigits(NatToString(n)) == (NatToString(n), false)
  {
    var s := NatToString(n);
    var c := s[0];
    assert IsDigit(c);
    assert c != '-' && c != '+';
    DigitRunOfDigits(s, []);
    assert s + [] == s;
  }

  /** Everything needed to read a rendered natural number back. */
  lemma NatToStringReads(n: nat)
    ensures TrimStart(NatToString(n)) == NatToString(n)
    ensures SignedDigits(NatToString(n)) == (NatToString(n), false)
    ensures DigitsValue(NatToString(n)) == n
  {
    NatToStringTight(n);
    NatToStringUnsigned(n);
    NatToStringValue(n);
  }

  /** The numeral of a negative number is '-' before the digits of its magnitude. */
  lemma {:induction false} NegativeReads(n: nat)
    requires n > 0
    ensures TrimStart(NegativeNumeral(n)) == NegativeNumeral(n)
    ensures SignedDigits(NegativeNumeral(n)) == (NatToString(n), true)
  {
    var d := NatToString(n);
    var s := NegativeNumeral(n);
    assert s[0] == '-' && !IsSpace(s[0]);
    assert s[1..] == d;
    DigitRunOfDigits(d, []);
    assert d + [] == d;
    assert SignedDigits(s) == (DigitRun(d), true);
  }

  lemma ParseIntOfNatString(n: nat)
    ensures ParseInt(NatToString(n)) == Finite(n)
  {
    NatToStringReads(n);
  }

  lemma ParseIntOfNegativeString(n: nat)
    requires n > 0
    ensures ParseInt(NegativeNumeral(n)) == Finite(-(n as int))
  {
    NegativeReads(n);
    NatToStringValue(n);
  }

  lemma ParseIntOfNaN()
    ensures ParseInt("NaN") == NaN
  {
    var s := "NaN";
    assert !IsSpace(s[0]);
    assert TrimStart(s) == s;
    assert !IsDigit(s[0]) && s[0] != '-' && s[0] != '+';
    assert SignedDigits(s) == ([], false);
  }

  /** `parseInt(String(v), 10) == v`: a number survives being written into a
      URL parameter and read back with `parseInt`. */
  lemma {:induction false} ParseIntRoundTrip(v: NumberValue)
    ensures ParseInt(NumberToString(v)) == v
  {
    match v
    case NaN =>
      ParseIntOfNaN();
    case Finite(i) =>
      if i < 0 {
        ParseIntOfNegative(i);
      } else {
        ParseIntOfNatural(i);
      }
  }

  lemma ParseIntOfNegative(i: int)
    requires i < 0
    ensures ParseInt(NumberToString(Finite(i))) == Finite(i)
  {
    var n: nat := -i;
    assert NumberToString(Finite(i)) == NegativeNumeral(n);
    ParseIntOfNegativeString(n);
  }

  lemma ParseIntOfNatural(i: int)
    requires i >= 0
    ensures ParseInt(NumberToString(Finite(i))) == Finite(i)
  {
    assert NumberToString(Finite(i)) == NatToString(i);
    ParseIntOfNatString(i);
  }

  /** A string with no white space at either end is its own trim. */
  lemma TrimTight(s: string)
    requires s != [] && !IsSpace(s[0]) && !IsSpace(s[|s| - 1])
    ensures Trim(s) == s
  {
  }

  /** One space on each side of a tight string is trimmed away. */
  lemma TrimPadded(s: string)
    requires s != [] && !IsSpace(s[0]) && !IsSpace(s[|s| - 1])
    ensures Trim([' '] + s + [' ']) == s
  {
    var padded := [' '] + s + [' '];
    assert padded[1..] == s + [' '];
    assert TrimStart(padded) == s + [' '];
    assert (s + [' '])[..|s|] == s;
    assert TrimEnd(s + [' ']) == TrimEnd(s);
  }

  lemma NatToStringTrimmed(n: nat)
    ensures Trim(NatToString(n)) == NatToString(n)
  {
    var s := NatToString(n);
    assert IsDigit(s[0]) && IsDigit(s[|s| - 1]);
    TrimTight(s);
  }

  lemma ToNumberOfDigits(s: string)
    requires s != [] && AllDigits(s) && Trim(s) == s
    ensures ToNumber(s) == Finite(DigitsValue(s))
  {
  }

  lemma ToNumberOfNatString(n: nat)
    ensures ToNumber(NatToString(n)) == Finite(n)
  {
    NatToStringTrimmed(n);
    ToNumberOfDigits(NatToString(n));
    NatToStringValue(n);
  }

  lemma ToNumberOfNegativeString(n: nat)
    requires n > 0
    ensures ToNumber(NegativeNumeral(n)) == Finite(-(n as int))
  {
    var d := NatToString(n);
    var s := NegativeNumeral(n);
    assert IsDigit(d[|d| - 1]) && s[|s| - 1] == d[|d| - 1];
    assert !IsSpace(s[0]) && !IsSpace(s[|s| - 1]);
    TrimTight(s);
    assert s[1..] == d;
    NatToStringValue(n);
  }

  lemma ToNumberOfNaN()
    ensures ToNumber("NaN") == NaN
  {
    var s := "NaN";
    assert !IsSpace(s[0]) && !IsSpace(s[2]);
    TrimTight(s);
    assert !IsDigit(s[0]) && s[0] != '-' && s[0] != '+';
  }

  /** `Number(String(v)) == v`: the same round trip through `Number`. */
  lemma {:induction false} ToNumberRoundTrip(v: NumberValue)
    ensures ToNumber(NumberToString(v)) == v
  {
    match v
    case NaN =>
      ToNumberOfNaN();
    case Finite(i) =>
      if i < 0 {
        ToNumberOfNegative(i);
      } else {
        ToNumberOfNatural(i);
      }
  }

  lemma ToNumberOfNegative(i: int)
    requires i < 0
    ensures ToNumber(NumberToString(Finite(i))) == Finite(i)
  {
    var n: nat := -i;
    assert NumberToString(Finite(i)) == NegativeNumeral(n);
    ToNumberOfNegativeString(n);
  }

  lemma ToNumberOfNatural(i: int)
    requires i >= 0
    ensures ToNumber(NumberToString(Finite(i))) == Finite(i)
  {
    assert NumberToString(Finite(i)) == NatToString(i);
    ToNumberOfNatString(i);
  }

  predicate IsPriceChar(c: char) {
    IsDigit(c) || c == '.'
  }

  /** `value.replace(/[^0-9.]/g, '')`: keeps exactly the digits and dots, in
      order, and drops every other character. */
  function KeepPriceChars(s: string): (r: string)
    ensures forall i :: 0 <= i < |r| ==> IsPriceChar(r[i])
    ensures forall c :: IsPriceChar(c) ==> multiset(r)[c] == multiset(s)[c]
    ensures (forall i :: 0 <= i < |s| ==> IsPriceChar(s[i])) ==> r == s
  {
    if s == [] then []
    else
      assert s == [s[0]] + s[1..];
      if IsPriceChar(s[0]) then [s[0]] + KeepPriceChars(s[1..]) else KeepPriceChars(s[1..])
  }

  /** The cleaning works character by character and keeps order: cleaning
      two pieces is cleaning each and joining the results. */
  lemma {:induction false} KeepPriceCharsConcat(a: string, b: string)
    ensures KeepPriceChars(a + b) == KeepPriceChars(a) + KeepPriceChars(b)
    decreases |a|
  {
    if a == [] {
      assert a + b == b;
    } else {
      var ab := a + b;
      assert ab[1..] == a[1..] + b;
      assert ab[0] == a[0];
      KeepPriceCharsConcat(a[1..], b);
      var head := if IsPriceChar(a[0]) then [a[0]] else [];
      KeepPriceCharsUnfold(ab);
      KeepPriceCharsUnfold(a);
      ConcatAssoc(head, KeepPriceChars(a[1..]), KeepPriceChars(b));
    }
  }

  /** One step of the cleaning: the first character, if kept, then the rest cleaned. */
  lemma KeepPriceCharsUnfold(s: string)
    requires s != []
    ensures KeepPriceChars(s) == (if IsPriceChar(s[0]) then [s[0]] else []) + KeepPriceChars(s[1..])
  {
  }

  lemma ConcatAssoc<T>(x: seq<T>, y: seq<T>, z: seq<T>)
    ensures x + (y + z) == (x + y) + z
  {
  }

  /** A single character is kept exactly when it is a digit or a dot. */
  lemma KeepPriceCharsOne(c: char)
    ensures KeepPriceChars([c]) == if IsPriceChar(c) then [c] else []
  {
    assert [c][1..] == [];
  }

  /** Cleaning a price input twice is the same as cleaning it once. */
  lemma {:induction false} KeepPriceCharsIdempotent(s: string)
    ensures KeepPriceChars(KeepPriceChars(s)) == KeepPriceChars(s)
  {
    if s != [] {
      KeepPriceCharsIdempotent(s[1..]);
      var t := KeepPriceChars(s[1..]);
      if IsPriceChar(s[0]) {
        assert ([s[0]] + t)[1..] == t;
      }
    }
  }
}
