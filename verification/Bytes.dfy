/** Bytes, and byte strings read as integers. */
module Bytes {

  type Byte = b: nat | b < 256

  function Pow(b: nat, n: nat): nat {
    if n == 0 then 1 else b * Pow(b, n - 1)
  }

  lemma {:induction false} PowAdd(b: nat, m: nat, n: nat)
    ensures Pow(b, m + n) == Pow(b, m) * Pow(b, n)
  {
    if m > 0 {
      PowAdd(b, m - 1, n);
      var x, y := Pow(b, m - 1), Pow(b, n);
      assert b * (x * y) == (b * x) * y;
    }
  }

  /** The integer that a byte string denotes, most significant byte first. */
  function BigEndian(bytes: seq<Byte>): nat {
    if bytes == [] then 0 else BigEndian(bytes[..|bytes| - 1]) * 256 + bytes[|bytes| - 1]
  }

  lemma {:induction false} BigEndianBound(bytes: seq<Byte>)
    ensures BigEndian(bytes) < Pow(256, |bytes|)
  {
    if bytes != [] {
      BigEndianBound(bytes[..|bytes| - 1]);
    }
  }

  lemma {:induction false} BigEndianInjective(a: seq<Byte>, b: seq<Byte>)
    requires |a| == |b| && BigEndian(a) == BigEndian(b)
    ensures a == b
  {
    if a != [] {
      var n := |a| - 1;
      assert BigEndian(a) % 256 == a[n] && BigEndian(b) % 256 == b[n];
      BigEndianInjective(a[..n], b[..n]);
      assert a == a[..n] + [a[n]] && b == b[..n] + [b[n]];
    }
  }

  /** The integer that a byte string denotes, least significant byte first. */
  function LittleEndian(bytes: seq<Byte>): nat {
    if bytes == [] then 0 else bytes[0] + 256 * LittleEndian(bytes[1..])
  }

  /** The `width` low bytes of `n`, least significant first. */
  function ToLittleEndian(n: nat, width: nat): (bytes: seq<Byte>)
    ensures |bytes| == width
  {
    if width == 0 then [] else [n % 256] + ToLittleEndian(n / 256, width - 1)
  }

  /** A byte string of a given length is the little-endian form of exactly one integer that fits. */
  lemma {:induction false} LittleEndianExactly(bytes: seq<Byte>, n: nat)
    ensures LittleEndian(bytes) == n <==> n < Pow(256, |bytes|) && ToLittleEndian(n, |bytes|) == bytes
  {
    if bytes != [] {
      LittleEndianExactly(bytes[1..], n / 256);
      var rest := ToLittleEndian(n / 256, |bytes| - 1);
      assert ([n % 256] + rest)[1..] == rest;
      assert bytes == [bytes[0]] + bytes[1..];
      assert n < 256 * Pow(256, |bytes| - 1) <==> n / 256 < Pow(256, |bytes| - 1);
    }
  }
}
