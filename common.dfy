/**
 * Values shared by the whole model: Kotlin's nullable values, 64-bit `Long`
 * arithmetic, `String.isBlank()` and the decimal rendering of an `Int` in a
 * string template.
 */
module Common {

  /** A Kotlin nullable value: `None` is `null`. */
  datatype Option<+T> = None | Some(value: T)

  /** Kotlin's `Long`. */
  const LONG_MODULUS: int := 0x1_0000_0000_0000_0000
  type Long = x: int | -0x8000_0000_0000_0000 <= x < 0x8000_0000_0000_0000

  /** Two's-complement wrap-around of a mathematical result into a `Long`,
      as the JVM does for `Long` subtraction. */
  function Wrap64(x: int): (r: Long)
    ensures (r - x) % LONG_MODULUS == 0
    ensures -0x8000_0000_0000_0000 <= x < 0x8000_0000_0000_0000 ==> r == x
  {
    var m := x % LONG_MODULUS;
    if m < 0x8000_0000_0000_0000 then m else m - LONG_MODULUS
  }

  /** Kotlin's `Char.isWhitespace()` on the JVM: `Character.isWhitespace`
      (the ASCII controls TAB..CR and FS..US, and the Unicode space separators
      other than the no-break ones) or `Character.isSpaceChar` (every Unicode
      space, line or paragraph separator, no-break spaces included). */
  predicate IsWhitespace(c: char) {
    || ('\t' <= c <= '\r')
    || ('\U{1C}' <= c <= '\U{1F}')
    || c == ' '
    || c == '\U{A0}'
    || c == '\U{1680}'
    || ('\U{2000}' <= c <= '\U{200A}')
    || c == '\U{2028}'
    || c == '\U{2029}'
    || c == '\U{202F}'
    || c == '\U{205F}'
    || c == '\U{3000}'
  }

  /** `CharSequence.isBlank()`: empty, or whitespace only. */
  predicate IsBlank(s: string) {
    forall i :: 0 <= i < |s| ==> IsWhitespace(s[i])
  }

  predicate IsNotBlank(s: string) {
    !IsBlank(s)
  }

  /** `trimStart()`, the reference definition of blankness: a string is blank
      exactly when nothing is left after its leading whitespace is dropped. */
  function TrimStart(s: string): (r: string)
    ensures |r| <= |s| && r == s[|s| - |r|..]
    ensures r != [] ==> !IsWhitespace(r[0])
  {
    if s == [] then []
    else if IsWhitespace(s[0]) then TrimStart(s[1..])
    else s
  }

  /** A non-empty string is blank exactly when its first character is
      whitespace and the rest is blank. */
  lemma BlankCons(s: string)
    requires s != []
    ensures IsBlank(s) <==> IsWhitespace(s[0]) && IsBlank(s[1..])
  {
    if IsWhitespace(s[0]) && IsBlank(s[1..]) {
      forall i | 0 <= i < |s| ensures IsWhitespace(s[i]) {
        if i > 0 { assert s[i] == s[1..][i - 1]; }
      }
    }
    if IsBlank(s) {
      forall i | 0 <= i < |s[1..]| ensures IsWhitespace(s[1..][i]) {
        assert s[1..][i] == s[i + 1];
      }
    }
  }

  lemma {:induction false} BlankIffTrimsToEmpty(s: string)
    ensures IsBlank(s) <==> TrimStart(s) == []
  {
    if s != [] {
      BlankIffTrimsToEmpty(s[1..]);
      BlankCons(s);
    }
  }

  /** The decimal digit of `d`. */
  function DigitChar(d: int): (c: char)
    requires 0 <= d < 10
    ensures '0' <= c <= '9'
    ensures c as int - '0' as int == d
  {
    (d + '0' as int) as char
  }

  predicate IsDigit(c: char) {
    '0' <= c <= '9'
  }

  /** Decimal rendering of a natural number, most significant digit first. */
  function NatToString(n: nat): (s: string)
    ensures |s| >= 1
    ensures forall i :: 0 <= i < |s| ==> IsDigit(s[i])
    decreases n
  {
    if n < 10 then [DigitChar(n)] else NatToString(n / 10) + [DigitChar(n % 10)]
  }

  /** The text of an `Int` in a Kotlin string template (`"$n"`). */
  function IntToString(n: int): (s: string)
    ensures |s| >= 1
    ensures s[0] == '-' <==> n < 0
  {
    if n < 0 then "-" + NatToString(-n) else NatToString(n)
  }

  lemma {:induction false} NatToStringInjective(a: nat, b: nat)
    requires NatToString(a) == NatToString(b)
    ensures a == b
    decreases a
  {
    var s := NatToString(a);
    if a >= 10 && b >= 10 {
      var n := |s|;
      assert s[n - 1] == DigitChar(a % 10) && s[n - 1] == DigitChar(b % 10);
      assert s[..n - 1] == NatToString(a / 10) && s[..n - 1] == NatToString(b / 10);
      NatToStringInjective(a / 10, b / 10);
    }
  }

  /** Distinct integers render as distinct strings. */
  lemma IntToStringInjective(a: int, b: int)
    requires IntToString(a) == IntToString(b)
    ensures a == b
  {
    if a < 0 {
      assert NatToString(-a) == IntToString(a)[1..];
      NatToStringInjective(-a, -b);
    } else {
      NatToStringInjective(a, b);
    }
  }
}
