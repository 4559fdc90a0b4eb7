// UTF-8 text and the order of its bytes.
module Utf8 {
  import opened Ordering

  type Byte = b: int | 0 <= b < 256

  // RFC 3629, section 3.
  function Encode(c: char): (r: seq<Byte>)
    ensures r != []
  {
    var n := c as int;
    if n < 0x80 then [n]
    else if n < 0x800 then [0xC0 + n / 64, 0x80 + n % 64]
    else if n < 0x1_0000 then [0xE0 + n / 64 / 64, 0x80 + n / 64 % 64, 0x80 + n % 64]
    else [0xF0 + n / 64 / 64 / 64, 0x80 + n / 64 / 64 % 64, 0x80 + n / 64 % 64, 0x80 + n % 64]
  }

  function Encoded(s: string): seq<Byte> {
    if s == [] then [] else Encode(s[0]) + Encoded(s[1..])
  }

  // They agree up to `k`, where `x` ends or has the smaller byte.
  ghost predicate SmallerAt(x: seq<Byte>, y: seq<Byte>, k: nat) {
    k <= |x| && k < |y| && x[..k] == y[..k] && (k == |x| || x[k] < y[k])
  }

  ghost predicate BytesBefore(x: seq<Byte>, y: seq<Byte>) {
    exists k: nat :: SmallerAt(x, y, k)
  }

  lemma Sixbits(m: nat, n: nat)
    requires m < n
    ensures m / 64 <= n / 64 && (m / 64 == n / 64 ==> m % 64 < n % 64)
  {
  }

  // The first of four base-64 digits in which two numbers differ is smaller in the smaller one.
  lemma FirstDigit(m: nat, n: nat)
    requires m < n
    ensures m / 64 / 64 / 64 <= n / 64 / 64 / 64
    ensures m / 64 / 64 / 64 == n / 64 / 64 / 64 ==> m / 64 / 64 % 64 <= n / 64 / 64 % 64
    ensures m / 64 / 64 == n / 64 / 64 ==> m / 64 % 64 <= n / 64 % 64
    ensures m / 64 == n / 64 ==> m % 64 < n % 64
    ensures m / 64 / 64 <= n / 64 / 64 && m / 64 <= n / 64
  {
    Sixbits(m, n);
    if m / 64 < n / 64 {
      Sixbits(m / 64, n / 64);
      if m / 64 / 64 < n / 64 / 64 { Sixbits(m / 64 / 64, n / 64 / 64); }
    }
  }

  // Each byte is at most the other one's as long as all before it agree, and the last one is smaller.
  ghost predicate Ascends(x: seq<Byte>, y: seq<Byte>) {
    && 0 < |x| == |y| <= 4
    && x[0] <= y[0]
    && (|x| > 1 && x[0] == y[0] ==> x[1] <= y[1])
    && (|x| > 2 && x[0] == y[0] && x[1] == y[1] ==> x[2] <= y[2])
    && (x[..|x| - 1] == y[..|x| - 1] ==> x[|x| - 1] < y[|x| - 1])
  }

  lemma LongerIsGreater(c: char, d: char)
    requires c < d && |Encode(c)| != |Encode(d)|
    ensures Encode(c)[0] < Encode(d)[0]
  {
    FirstDigit(c as int, d as int);
  }

  lemma SameLengthAscends(c: char, d: char)
    requires c < d && |Encode(c)| == |Encode(d)|
    ensures Ascends(Encode(c), Encode(d))
  {
    FirstDigit(c as int, d as int);
  }

  // The first byte in which two characters differ is smaller in the smaller one.
  lemma CharsInOrder(c: char, d: char) returns (k: nat)
    requires c < d
    ensures k < |Encode(c)| && k < |Encode(d)| && Encode(c)[..k] == Encode(d)[..k] && Encode(c)[k] < Encode(d)[k]
  {
    var x, y := Encode(c), Encode(d);
    if |x| != |y| { LongerIsGreater(c, d); } else { SameLengthAscends(c, d); }
    k := if |x| != |y| || x[0] != y[0] then 0 else if x[1] != y[1] then 1 else if x[2] != y[2] then 2 else 3;
  }

  lemma SmallerAfter(p: seq<Byte>, x: seq<Byte>, y: seq<Byte>, k: nat)
    requires SmallerAt(x, y, k)
    ensures SmallerAt(p + x, p + y, |p| + k)
  {
    assert (p + x)[..|p| + k] == p + x[..k] == p + y[..k] == (p + y)[..|p| + k];
  }

  lemma {:induction false} BeforeMeansSmaller(a: Id, b: Id)
    requires Before(a, b)
    ensures BytesBefore(Encoded(a), Encoded(b))
  {
    if a == [] {
      assert SmallerAt(Encoded(a), Encoded(b), 0);
    } else if a[0] < b[0] {
      var k := CharsInOrder(a[0], b[0]);
      assert Encoded(a)[..k] == Encode(a[0])[..k] && Encoded(b)[..k] == Encode(b[0])[..k];
      assert SmallerAt(Encoded(a), Encoded(b), k);
    } else {
      BeforeMeansSmaller(a[1..], b[1..]);
      var k: nat :| SmallerAt(Encoded(a[1..]), Encoded(b[1..]), k);
      SmallerAfter(Encode(a[0]), Encoded(a[1..]), Encoded(b[1..]), k);
    }
  }

  lemma SmallerOneWay(x: seq<Byte>, y: seq<Byte>)
    requires BytesBefore(x, y)
    ensures !BytesBefore(y, x) && x != y
  {
    var k: nat :| SmallerAt(x, y, k);
    if j: nat :| SmallerAt(y, x, j) {
      if j < k {
        assert x[j] == x[..k][j] == y[..k][j] == y[j];
      } else if k < j {
        assert x[k] == x[..j][k] == y[..j][k] == y[k];
      }
    }
  }

  /** The ID order is the order of the UTF-8 bytes: where two texts first differ
      the smaller byte decides, and a text comes before its extensions. */
  lemma BeforeIsByteOrder(a: Id, b: Id)
    ensures Before(a, b) <==> BytesBefore(Encoded(a), Encoded(b))
  {
    BeforeTotal(a, b);
    if Before(a, b) {
      BeforeMeansSmaller(a, b);
    } else if Before(b, a) {
      BeforeMeansSmaller(b, a);
      SmallerOneWay(Encoded(b), Encoded(a));
    } else if BytesBefore(Encoded(a), Encoded(a)) {
      SmallerOneWay(Encoded(a), Encoded(a));
    }
  }
}
