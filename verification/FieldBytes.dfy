/** Field elements and their 32-byte encoding, from `scripts/generate-real-proof.ts`. */
module FieldBytes {
  import opened Bytes

  /** The order of the alt_bn128 groups, given as `q` in "Definition of the groups" of EIP-197. */
  const FIELD_MODULUS: nat := 21888242871839275222246405745257275088548364400416034343698204186575808495617

  /** The parameter of the Barreto-Naehrig curve alt_bn128. */
  const CURVE_PARAMETER: nat := 4965661367192848881

  /** The modulus is the group order that the curve parameter gives. */
  lemma ModulusIsGroupOrder()
    ensures var x := CURVE_PARAMETER;
            FIELD_MODULUS == 36 * x * x * x * x + 36 * x * x * x + 18 * x * x + 6 * x + 1
  {}

  /** JavaScript's `a % b` for a positive `b`: the result has the sign of `a`. */
  function Rem(a: int, b: int): int
    requires b > 0
  {
    if a >= 0 then a % b else -((-a) % b)
  }

  /** `normalizeFieldElement`. */
  function Normalize(value: int): int {
    Rem(Rem(value, FIELD_MODULUS) + FIELD_MODULUS, FIELD_MODULUS)
  }

  predicate Congruent(a: int, b: int) {
    (a - b) % FIELD_MODULUS == 0
  }

  lemma NormalizeIsRemainder(v: int)
    ensures Normalize(v) == v % FIELD_MODULUS
  {}

  /** The normal form of a value is its one representative among the field elements, for negatives too. */
  lemma NormalizeIsResidue(v: int, r: int)
    ensures r == Normalize(v) <==> 0 <= r < FIELD_MODULUS && Congruent(r, v)
  {
    hide Normalize;
    NormalizeIsRemainder(v);
  }

  lemma NormalizeCongruent(a: int, b: int)
    ensures Normalize(a) == Normalize(b) <==> Congruent(a, b)
  {
    hide Normalize;
    NormalizeIsResidue(a, Normalize(a));
    NormalizeIsResidue(b, Normalize(b));
    NormalizeIsResidue(b, Normalize(a));
  }

  lemma AddMultiple(x: int, k: int)
    ensures (x + k * FIELD_MODULUS) % FIELD_MODULUS == x % FIELD_MODULUS
  {}

  lemma ResiduesCongruent(a: nat, b: nat)
    ensures Congruent(a % FIELD_MODULUS, b % FIELD_MODULUS) <==> Congruent(a, b)
  {}

  // ---------------------------------------------------------------- hexadecimal

  function HexDigit(d: nat): char
    requires d < 16
  {
    if d < 10 then '0' + d as char else 'a' + (d - 10) as char
  }

  predicate IsHex(c: char) {
    '0' <= c <= '9' || 'a' <= c <= 'f' || 'A' <= c <= 'F'
  }

  function HexValue(c: char): (d: nat)
    requires IsHex(c)
    ensures d < 16
  {
    if c <= '9' then (c - '0') as nat else if c <= 'F' then (c - 'A') as nat + 10 else (c - 'a') as nat + 10
  }

  function NatToHex(n: nat): string {
    if n < 16 then [HexDigit(n)] else NatToHex(n / 16) + [HexDigit(n % 16)]
  }

  /** `value.toString(16)`. */
  function ToHex(value: int): string {
    if value < 0 then "-" + NatToHex(-value) else NatToHex(value)
  }

  function PadStart(s: string, width: nat): string
    decreases width - |s|
  {
    if |s| >= width then s else PadStart("0" + s, width)
  }

  /** `Buffer.from(s, "hex")`: decoding stops at the first pair that is not hexadecimal. */
  function FromHex(s: string): seq<Byte> {
    if |s| >= 2 && IsHex(s[0]) && IsHex(s[1]) then [HexValue(s[0]) * 16 + HexValue(s[1])] + FromHex(s[2..]) else []
  }

  /** `bigintToBytes32`. */
  function ToBytes32(value: int): seq<Byte> {
    FromHex(PadStart(ToHex(value), 64))
  }

  predicate AllHex(s: string) {
    forall i :: 0 <= i < |s| ==> IsHex(s[i])
  }

  function HexNumber(s: string): nat
    requires AllHex(s)
  {
    if s == "" then 0 else HexNumber(s[..|s| - 1]) * 16 + HexValue(s[|s| - 1])
  }

  lemma {:induction false} NatToHexNumber(n: nat)
    ensures AllHex(NatToHex(n)) && HexNumber(NatToHex(n)) == n
  {
    if n >= 16 {
      NatToHexNumber(n / 16);
      assert NatToHex(n)[..|NatToHex(n)| - 1] == NatToHex(n / 16);
    }
  }

  lemma {:induction false} NatToHexLength(n: nat, width: nat)
    requires width > 0 && n < Pow(16, width)
    ensures |NatToHex(n)| <= width
  {
    if n >= 16 {
      assert Pow(16, width) == 16 * Pow(16, width - 1);
      assert width > 1;
      NatToHexLength(n / 16, width - 1);
    }
  }

  lemma {:induction false} ZeroInFront(s: string)
    requires AllHex(s)
    ensures AllHex("0" + s) && HexNumber("0" + s) == HexNumber(s)
  {
    if s != "" {
      ZeroInFront(s[..|s| - 1]);
      assert ("0" + s)[..|s|] == "0" + s[..|s| - 1];
    }
  }

  lemma {:induction false} PadStartNumber(s: string, width: nat)
    requires AllHex(s) && |s| <= width
    ensures var p := PadStart(s, width);
            |p| == width && AllHex(p) && HexNumber(p) == HexNumber(s)
    decreases width - |s|
  {
    if |s| < width {
      ZeroInFront(s);
      PadStartNumber("0" + s, width);
    }
  }

  lemma {:induction false} LastPairNumber(s: string)
    requires AllHex(s) && |s| >= 2
    ensures var n := |s| - 2;
            HexNumber(s) == HexNumber(s[..n]) * 256 + (HexValue(s[n]) * 16 + HexValue(s[n + 1]))
  {
    var n := |s| - 2;
    var t := s[..n + 1];
    assert t[..n] == s[..n];
    assert HexNumber(t) == HexNumber(s[..n]) * 16 + HexValue(s[n]);
  }

  lemma {:induction false} LastPairBytes(s: string)
    requires AllHex(s) && |s| % 2 == 0 && s != ""
    ensures var n := |s| - 2;
            FromHex(s) == FromHex(s[..n]) + [HexValue(s[n]) * 16 + HexValue(s[n + 1])]
  {
    if |s| > 2 {
      LastPairBytes(s[2..]);
      assert s[2..][..|s| - 4] == s[..|s| - 2][2..];
    }
  }

  lemma {:induction false} FromHexNumber(s: string)
    requires AllHex(s) && |s| % 2 == 0
    ensures |FromHex(s)| == |s| / 2 && BigEndian(FromHex(s)) == HexNumber(s)
  {
    if s != "" {
      var front := s[..|s| - 2];
      FromHexNumber(front);
      LastPairNumber(s);
      LastPairBytes(s);
      assert FromHex(s)[..|FromHex(s)| - 1] == FromHex(front);
    }
  }

  lemma {:induction false} PowSquare(n: nat)
    ensures Pow(16, 2 * n) == Pow(256, n)
  {
    if n > 0 {
      PowSquare(n - 1);
      assert Pow(16, 2 * n) == 16 * (16 * Pow(16, 2 * n - 2));
    }
  }

  /** The encoding is 32 bytes that denote the value exactly when the value fits in 256 bits. */
  lemma ToBytes32IsExact(value: int)
    ensures (|ToBytes32(value)| == 32 && BigEndian(ToBytes32(value)) == value) <==> 0 <= value < Pow(256, 32)
  {
    var bytes := ToBytes32(value);
    BigEndianBound(bytes);
    if 0 <= value < Pow(256, 32) {
      PowSquare(32);
      NatToHexNumber(value);
      NatToHexLength(value, 64);
      PadStartNumber(NatToHex(value), 64);
      FromHexNumber(PadStart(NatToHex(value), 64));
    }
  }

  lemma FieldFitsIn256Bits()
    ensures FIELD_MODULUS < Pow(256, 32)
  {
    assert Pow(256, 2) == 65536;
    PowAdd(256, 2, 2);
    PowAdd(256, 4, 4);
    PowAdd(256, 8, 8);
    PowAdd(256, 16, 16);
    assert Pow(256, 8) == 0x1_0000_0000_0000_0000;
  }

  /** The encoding of a normalized value, for every integer. */
  lemma NormalizedBytes(v: int)
    ensures |ToBytes32(Normalize(v))| == 32 && BigEndian(ToBytes32(Normalize(v))) == Normalize(v)
  {
    NormalizeIsResidue(v, Normalize(v));
    FieldFitsIn256Bits();
    ToBytes32IsExact(Normalize(v));
  }

  /** Two values have the same encoding exactly when they are the same field element. */
  lemma NormalizedBytesInjective(a: int, b: int)
    ensures ToBytes32(Normalize(a)) == ToBytes32(Normalize(b)) <==> Congruent(a, b)
  {
    NormalizedBytes(a);
    NormalizedBytes(b);
    NormalizeCongruent(a, b);
  }

  // ---------------------------------------------------------------- byte strings as field elements

  /** `pubkeyToField`, by Horner's rule with a reduction at every byte. */
  method PubkeyToField(bytes: seq<Byte>) returns (field: nat)
    ensures field == BigEndian(bytes) % FIELD_MODULUS
  {
    field := 0;
    for i := 0 to |bytes|
      invariant field == BigEndian(bytes[..i]) % FIELD_MODULUS
    {
      assert bytes[..i + 1][..i] == bytes[..i];
      HornerStep(BigEndian(bytes[..i]), bytes[i]);
      field := Rem(field * 256 + bytes[i], FIELD_MODULUS);
    }
    assert bytes[..|bytes|] == bytes;
  }

  lemma HornerStep(n: nat, b: Byte)
    ensures (n % FIELD_MODULUS * 256 + b) % FIELD_MODULUS == (n * 256 + b) % FIELD_MODULUS
  {
    var q, r := n / FIELD_MODULUS, n % FIELD_MODULUS;
    assert n * 256 + b == (r * 256 + b) + (256 * q) * FIELD_MODULUS;
    AddMultiple(r * 256 + b, 256 * q);
  }

  /** The field element that `PubkeyToField` computes. */
  function FieldOf(bytes: seq<Byte>): nat {
    BigEndian(bytes) % FIELD_MODULUS
  }

  /** Decoding the encoding of a value gives its normal form. */
  lemma FieldRoundTrip(v: int)
    ensures FieldOf(ToBytes32(Normalize(v))) == Normalize(v)
  {
    hide ToBytes32, Normalize, BigEndian;
    NormalizedBytes(v);
    NormalizeIsResidue(v, Normalize(v));
  }
}
