/** The parts of PHP's runtime semantics that the modelled commands rely on:
    nullable results, the values found in decoded JSON and SDK results,
    empty() and truthiness, `>` against an integer, the decimal form of an
    integer and trim(). */
module Php {

  datatype Option<T> = None | Some(value: T)

  /** A scalar or container value as it comes out of json_decode or an SDK
      result. Arrays and objects are abstracted to their number of entries,
      which is all that empty() and the comparisons below look at. */
  datatype Value =
    | Null
    | Bool(b: bool)
    | Int(i: int)
    | Float(f: real)
    | Str(s: string)
    | Arr(size: nat)

  /** An associative array with string keys, such as a decoded cache file. */
  type Record = map<string, Value>

  /** PHP's empty() on a value that is set. */
  predicate IsEmpty(v: Value)
  {
    match v
    case Null => true
    case Bool(b) => !b
    case Int(i) => i == 0
    case Float(f) => f == 0.0
    case Str(s) => s == "" || s == "0"
    case Arr(n) => n == 0
  }

  /** `empty($r[$key])`: a missing key counts as empty (and raises no warning). */
  predicate EmptyAt(r: Record, key: string)
  {
    key !in r || IsEmpty(r[key])
  }

  /** A string used as a condition, e.g. the result of getenv() when the
      variable is set. */
  predicate Truthy(s: string)
  {
    !IsEmpty(Str(s))
  }

  /** `$a < $b` for two strings that are compared as strings: strcmp order,
      character by character, a proper prefix being smaller. */
  predicate LexLess(a: string, b: string)
  {
    if a == [] then b != []
    else if b == [] then false
    else if a[0] != b[0] then a[0] < b[0]
    else LexLess(a[1..], b[1..])
  }

  /** `$v > $n` for an int `$n` under PHP 8's comparison rules. `numeric` is
      PHP's recognition of numeric strings (None for a non-numeric string,
      otherwise the number it denotes). Null and booleans are compared as
      booleans; a non-numeric string is compared with the decimal form of
      `$n` as a string; an array is greater than any scalar. */
  predicate GreaterThanInt(v: Value, n: int, numeric: string -> Option<real>)
  {
    match v
    case Null => false
    case Bool(b) => b && n == 0
    case Int(i) => i > n
    case Float(f) => f > n as real
    case Str(s) =>
      (match numeric(s)
       case Some(x) => x > n as real
       case None => LexLess(IntToDecimal(n), s))
    case Arr(_) => true
  }

  predicate IsDigit(c: char)
  {
    '0' <= c <= '9'
  }

  function DigitChar(d: nat): (c: char)
    requires d < 10
    ensures IsDigit(c)
  {
    ['0', '1', '2', '3', '4', '5', '6', '7', '8', '9'][d]
  }

  /** The value of a string of decimal digits (the reference reading of a
      decimal numeral, used to state what the formatting below produces). */
  function DecimalValue(s: string): nat
    requires forall i :: 0 <= i < |s| ==> IsDigit(s[i])
  {
    if s == [] then 0
    else 10 * DecimalValue(s[..|s| - 1]) + DigitValue(s[|s| - 1])
  }

  function DigitValue(c: char): nat
    requires IsDigit(c)
  {
    (c as int) - ('0' as int)
  }

  /** `(string)$n` for a non-negative int. */
  function NatToDecimal(n: nat): string
    decreases n
  {
    if n < 10 then [DigitChar(n)] else NatToDecimal(n / 10) + [DigitChar(n % 10)]
  }

  /** `(string)$n` for an int. */
  function IntToDecimal(n: int): string
  {
    if n < 0 then "-" + NatToDecimal(-n) else NatToDecimal(n)
  }

  /** The decimal form of n is a numeral without a redundant leading zero
      that reads back as n. */
  lemma {:induction false} NatToDecimalReadsBack(n: nat)
    ensures var s := NatToDecimal(n);
      && s != []
      && (forall i :: 0 <= i < |s| ==> IsDigit(s[i]))
      && (|s| > 1 ==> s[0] != '0')
      && DecimalValue(s) == n
    decreases n
  {
    var s := NatToDecimal(n);
    if n >= 10 {
      NatToDecimalReadsBack(n / 10);
      var p := NatToDecimal(n / 10);
      assert s == p + [DigitChar(n % 10)];
      assert s[..|s| - 1] == p;
      assert DigitValue(DigitChar(n % 10)) == n % 10;
    } else {
      assert DigitValue(DigitChar(n)) == n;
      assert s[..|s| - 1] == [];
    }
  }

  /** `(string)$n` is the decimal numeral of |n|, preceded by a minus sign
      exactly when n is negative. */
  lemma {:induction false} IntToDecimalReadsBack(n: int)
    ensures var s := IntToDecimal(n);
      && s != []
      && (s[0] == '-' <==> n < 0)
      && var digits := if n < 0 then s[1..] else s;
         && digits != []
         && (forall i :: 0 <= i < |digits| ==> IsDigit(digits[i]))
         && DecimalValue(digits) == (if n < 0 then -n else n)
  {
    if n < 0 {
      NatToDecimalReadsBack(-n);
      assert IntToDecimal(n)[1..] == NatToDecimal(-n);
    } else {
      NatToDecimalReadsBack(n);
      assert IsDigit(NatToDecimal(n)[0]);
    }
  }

  /** Which values empty() accepts: besides null, false, 0, 0.0 and an empty
      array, only the strings "" and "0". Strings that merely look false, such
      as "0.0", "00", " " or "false", are not empty. */
  lemma EmptyValues(s: string)
    ensures IsEmpty(Null) && IsEmpty(Bool(false)) && IsEmpty(Int(0)) && IsEmpty(Float(0.0)) && IsEmpty(Arr(0))
    ensures IsEmpty(Str("")) && IsEmpty(Str("0"))
    ensures |s| >= 2 ==> Truthy(s)
    ensures Truthy("0.0") && Truthy(" ") && Truthy("false")
  {
    if |s| >= 2 {
      assert s != "" && s != "0" by {
        assert |""| == 0 && |"0"| == 1;
      }
    }
  }

  /** `$v > $n` in the cases that matter for a decoded expiry: integers and
      numeric strings compare as numbers, null is never greater, true is
      greater only than 0, and an array is greater than every integer. */
  lemma GreaterThanIntCases(n: int, numeric: string -> Option<real>, i: int, s: string, x: real)
    ensures GreaterThanInt(Int(i), n, numeric) <==> i > n
    ensures !GreaterThanInt(Null, n, numeric)
    ensures GreaterThanInt(Bool(true), n, numeric) <==> n == 0
    ensures !GreaterThanInt(Bool(false), n, numeric)
    ensures GreaterThanInt(Arr(0), n, numeric)
    ensures numeric(s) == Some(x) ==> (GreaterThanInt(Str(s), n, numeric) <==> x > n as real)
  {
  }

  /** A non-numeric string that starts with a letter (or any character after
      '9') compares greater than every non-negative integer: PHP 8 compares it
      with the integer's decimal form as a string, and that starts with a
      digit. */
  lemma {:induction false} WordExceedsEveryNat(s: string, n: nat, numeric: string -> Option<real>)
    requires numeric(s) == None
    requires s != [] && s[0] > '9'
    ensures GreaterThanInt(Str(s), n, numeric)
  {
    NatToDecimalReadsBack(n);
    var t := IntToDecimal(n);
    assert t == NatToDecimal(n);
    assert IsDigit(t[0]);
  }

  /** The characters trim() removes by default: " \t\n\r\0\x0B". */
  predicate IsTrimmable(c: char)
  {
    c == ' ' || c == '\t' || c == '\n' || c == '\r' || c == '\U{0}' || c == '\U{0B}'
  }

  predicate AllTrimmable(s: string)
  {
    forall i :: 0 <= i < |s| ==> IsTrimmable(s[i])
  }

  function TrimLeft(s: string): string
  {
    if s != [] && IsTrimmable(s[0]) then TrimLeft(s[1..]) else s
  }

  function TrimRight(s: string): string
  {
    if s != [] && IsTrimmable(s[|s| - 1]) then TrimRight(s[..|s| - 1]) else s
  }

  /** PHP's trim() with its default character list. */
  function Trim(s: string): string
  {
    TrimRight(TrimLeft(s))
  }

  lemma {:induction false} TrimLeftSlice(s: string) returns (i: nat)
    ensures i <= |s| && TrimLeft(s) == s[i..] && AllTrimmable(s[..i])
    ensures i < |s| ==> !IsTrimmable(s[i])
  {
    if s != [] && IsTrimmable(s[0]) {
      var k := TrimLeftSlice(s[1..]);
      i := k + 1;
      assert s[1..][k..] == s[i..];
      assert s[..i] == [s[0]] + s[1..][..k];
    } else {
      i := 0;
    }
  }

  lemma {:induction false} TrimRightSlice(s: string) returns (j: nat)
    ensures j <= |s| && TrimRight(s) == s[..j] && AllTrimmable(s[j..])
    ensures 0 < j ==> !IsTrimmable(s[j - 1])
  {
    if s != [] && IsTrimmable(s[|s| - 1]) {
      var p := s[..|s| - 1];
      j := TrimRightSlice(p);
      assert p[..j] == s[..j];
      assert s[j..] == p[j..] + [s[|s| - 1]];
    } else {
      j := |s|;
    }
  }

  /** trim() keeps exactly the part of s between its leading and its trailing
      run of trimmable characters: the result is a slice of s, everything cut
      off is trimmable, and the result neither starts nor ends with a
      trimmable character. */
  lemma TrimSlice(s: string) returns (i: nat, j: nat)
    ensures i <= j <= |s|
    ensures Trim(s) == s[i..j]
    ensures AllTrimmable(s[..i]) && AllTrimmable(s[j..])
    ensures i < j ==> !IsTrimmable(s[i]) && !IsTrimmable(s[j - 1])
  {
    i := TrimLeftSlice(s);
    var t := s[i..];
    var k := TrimRightSlice(t);
    j := i + k;
    assert t[..k] == s[i..j];
    assert t[k..] == s[j..];
    if i < j {
      assert s[i] == t[0];
    }
  }

  /** Trimming twice changes nothing more. */
  lemma TrimIdempotent(s: string)
    ensures Trim(Trim(s)) == Trim(s)
  {
    var i, j := TrimSlice(s);
    var t := Trim(s);
    if i < j {
      assert t[0] == s[i] && t[|t| - 1] == s[j - 1];
    }
    assert TrimLeft(t) == t;
  }
}
