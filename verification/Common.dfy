/** Small definitions shared by the models: optional values and the white space
    that JavaScript's `trim` removes. */
module Common {
  datatype Option<+T> = None | Some(value: T) {
    function GetOr(default: T): T {
      match this
      case None => default
      case Some(v) => v
    }
  }

  /** The characters that `String.prototype.trim` strips. */
  predicate IsSpace(c: char) {
    var code := c as int;
    || 0x09 <= code <= 0x0D || code == 0x20 || code == 0xA0 || code == 0x1680 || 0x2000 <= code <= 0x200A
    || code == 0x2028 || code == 0x2029 || code == 0x202F || code == 0x205F || code == 0x3000 || code == 0xFEFF
  }

  /** True when `s.trim()` is the empty string. */
  predicate Blank(s: string) {
    forall i | 0 <= i < |s| :: IsSpace(s[i])
  }

  function TrimStart(s: string): string {
    if s != "" && IsSpace(s[0]) then TrimStart(s[1..]) else s
  }

  function TrimEnd(s: string): string {
    if s != "" && IsSpace(s[|s| - 1]) then TrimEnd(s[..|s| - 1]) else s
  }

  function Trim(s: string): string {
    TrimEnd(TrimStart(s))
  }

  function Min(a: int, b: int): int {
    if a <= b then a else b
  }

  function Max(a: int, b: int): int {
    if a >= b then a else b
  }

  /** Lower case as far as ASCII goes. */
  function LowerChar(c: char): char {
    if 'A' <= c <= 'Z' then (c as int + 32) as char else c
  }

  function Lower(s: string): (r: string)
    ensures |r| == |s|
  {
    if s == "" then "" else [LowerChar(s[0])] + Lower(s[1..])
  }

  lemma {:induction false} LowerTake(a: string, n: nat)
    requires n <= |a|
    ensures Lower(a[..n]) == Lower(a)[..n]
  {
    if n > 0 {
      LowerTake(a[1..], n - 1);
      assert a[..n][1..] == a[1..][..n - 1];
    }
  }

  /** The first seven characters, the form in which sessions print commit names. */
  function Prefix7(sha: string): string {
    if |sha| <= 7 then sha else sha[..7]
  }

  // ----- powers of two -----

  function Pow2(n: nat): (p: nat)
    ensures p >= 1
  {
    if n == 0 then 1 else 2 * Pow2(n - 1)
  }

  lemma {:induction false} Pow2Grows(a: nat, b: nat)
    requires a <= b
    ensures Pow2(a) <= Pow2(b)
  {
    if a < b {
      Pow2Grows(a, b - 1);
    }
  }

  // ----- hexadecimal -----

  function HexDigit(d: nat): char
    requires d < 16
  {
    "0123456789abcdef"[d]
  }

  function Hex(n: nat): string {
    if n < 16 then [HexDigit(n)] else Hex(n / 16) + [HexDigit(n % 16)]
  }

  /** `padStart(width, "0")`. */
  function PadZeros(s: string, width: nat): string
    decreases width - |s|
  {
    if |s| >= width then s else PadZeros("0" + s, width)
  }

  predicate IsHexDigit(c: char) {
    '0' <= c <= '9' || 'a' <= c <= 'f'
  }

  lemma DigitIsHex(d: nat)
    requires d < 16
    ensures IsHexDigit(HexDigit(d))
  {
    if d < 8 {
    } else {
    }
  }

  lemma {:induction false} HexIsHex(n: nat)
    ensures Hex(n) != "" && forall i | 0 <= i < |Hex(n)| :: IsHexDigit(Hex(n)[i])
  {
    DigitIsHex(n % 16);
    if n >= 16 {
      HexIsHex(n / 16);
    }
  }

  // ----- texts put together with a separator -----

  predicate Without(c: char, s: string) {
    forall i | 0 <= i < |s| :: s[i] != c
  }

  /** Where a text continues with a separator, the piece before it is determined. */
  lemma PiecesAgree(c: char, a: string, x: string, b: string, y: string)
    requires Without(c, a) && Without(c, b) && a + x == b + y
    requires (x == "" || x[0] == c) && (y == "" || y[0] == c)
    ensures a == b && x == y
  {
    var t := a + x;
    assert a == t[..|a|] && b == t[..|b|];
    assert x == t[|a|..] && y == t[|b|..];
    FirstSeparator(c, a, x);
    FirstSeparator(c, b, y);
  }

  lemma FirstSeparator(c: char, a: string, x: string)
    requires Without(c, a) && (x == "" || x[0] == c)
    ensures forall i | 0 <= i < |a| :: (a + x)[i] != c
    ensures |a| < |a + x| ==> (a + x)[|a|] == c
  {
  }
}
