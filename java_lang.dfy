/**
 * The parts of java.lang that the customer model relies on: 32-bit `int`
 * arithmetic, `Math.max`, `String.compareTo` (the ordering behind
 * `Comparator.comparing(Product::getProductId)`) and `String.trim`.
 */
module JavaLang {

  /** Java's `int`: two's-complement, 32 bits wide. */
  type Int32 = x: int | -0x8000_0000 <= x < 0x8000_0000

  const Int32Max: int := 0x7fff_ffff

  /** Narrowing of a mathematical integer to `int`, wrapping modulo 2^32. */
  function ToInt32(x: int): (r: Int32)
    ensures -0x8000_0000 <= x < 0x8000_0000 ==> r == x
    ensures (x - r) % 0x1_0000_0000 == 0
  {
    (x + 0x8000_0000) % 0x1_0000_0000 - 0x8000_0000
  }

  /** Java's `a + b` on two `int`s: it wraps around instead of overflowing. */
  function AddInt32(a: Int32, b: Int32): (r: Int32)
    ensures -0x8000_0000 <= a + b <= Int32Max ==> r == a + b
    ensures (r - (a + b)) % 0x1_0000_0000 == 0
  {
    ToInt32(a + b)
  }

  /** Two integers that are congruent modulo 2^32 narrow to the same `int`. */
  lemma ToInt32Congruent(x: int, y: int)
    requires (x - y) % 0x1_0000_0000 == 0
    ensures ToInt32(x) == ToInt32(y)
  {
    var rx, ry := ToInt32(x), ToInt32(y);
    var d := rx - ry;
    assert (x - rx) == 0x1_0000_0000 * ((x - rx) / 0x1_0000_0000);
    assert (y - ry) == 0x1_0000_0000 * ((y - ry) / 0x1_0000_0000);
    assert (x - y) == 0x1_0000_0000 * ((x - y) / 0x1_0000_0000);
    var k := (x - y) / 0x1_0000_0000 - (x - rx) / 0x1_0000_0000 + (y - ry) / 0x1_0000_0000;
    assert d == 0x1_0000_0000 * k;
    assert -0x1_0000_0000 < d < 0x1_0000_0000;
  }

  /** Wrapping an intermediate sum does not change a wrapped total. */
  lemma ToInt32OfSum(a: int, b: int)
    ensures ToInt32(ToInt32(a) + b) == ToInt32(a + b)
  {
    ToInt32Congruent(ToInt32(a) + b, a + b);
  }

  function Max(a: int, b: int): (r: int)
    ensures r >= a && r >= b && (r == a || r == b)
  {
    if a >= b then a else b
  }

  /**
   * `a.compareTo(b)`: the difference of the first pair of characters at which
   * the strings differ, or else the difference of their lengths.
   */
  function CompareTo(a: string, b: string): int
  {
    if a == [] || b == [] then |a| - |b|
    else if a[0] != b[0] then a[0] as int - b[0] as int
    else CompareTo(a[1..], b[1..])
  }

  lemma {:induction false} CompareToAntisymmetric(a: string, b: string)
    ensures CompareTo(a, b) == -CompareTo(b, a)
  {
    if a != [] && b != [] && a[0] == b[0] {
      CompareToAntisymmetric(a[1..], b[1..]);
    }
  }

  lemma {:induction false} CompareToZero(a: string, b: string)
    ensures CompareTo(a, b) == 0 <==> a == b
  {
    if a != [] && b != [] && a[0] == b[0] {
      CompareToZero(a[1..], b[1..]);
      assert a == [a[0]] + a[1..] && b == [b[0]] + b[1..];
    }
  }

  lemma {:induction false} CompareToTransitive(a: string, b: string, c: string)
    requires CompareTo(a, b) <= 0 && CompareTo(b, c) <= 0
    ensures CompareTo(a, c) <= 0
  {
    if a != [] && b != [] && c != [] && a[0] == b[0] && b[0] == c[0] {
      CompareToTransitive(a[1..], b[1..], c[1..]);
    }
  }

  /** Drops the leading characters at or below U+0020. */
  function TrimLeading(s: string): (r: string)
    ensures |r| <= |s| && r == s[|s| - |r|..]
    ensures forall k :: 0 <= k < |s| - |r| ==> s[k] <= ' '
    ensures r != [] ==> r[0] > ' '
  {
    if s != [] && s[0] <= ' ' then TrimLeading(s[1..]) else s
  }

  /** Drops the trailing characters at or below U+0020. */
  function TrimTrailing(s: string): (r: string)
    ensures |r| <= |s| && r == s[..|r|]
    ensures forall k :: |r| <= k < |s| ==> s[k] <= ' '
    ensures r != [] ==> r[|r| - 1] > ' '
  {
    if s != [] && s[|s| - 1] <= ' ' then TrimTrailing(s[..|s| - 1]) else s
  }

  /**
   * `s.trim()`: `s` without its leading and trailing characters at or below
   * U+0020; empty exactly when `s` consists of such characters only.
   */
  function Trim(s: string): (r: string)
    ensures r == [] <==> forall k :: 0 <= k < |s| ==> s[k] <= ' '
    ensures r != [] ==> r[0] > ' ' && r[|r| - 1] > ' '
  {
    TrimTrailing(TrimLeading(s))
  }

  /**
   * The trimmed string is a slice of `s`, and everything cut off on either
   * side is at or below U+0020.
   */
  lemma TrimIsSlice(s: string) returns (i: nat, j: nat)
    ensures i <= j <= |s| && Trim(s) == s[i..j]
    ensures forall k :: 0 <= k < i ==> s[k] <= ' '
    ensures forall k :: j <= k < |s| ==> s[k] <= ' '
  {
    var lead := TrimLeading(s);
    i := |s| - |lead|;
    j := i + |Trim(s)|;
    assert Trim(s) == lead[..|Trim(s)|];
    assert forall k :: j <= k < |s| ==> s[k] == lead[k - i];
  }

}
