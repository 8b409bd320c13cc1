/** Points of the curve A x^2 + y^2 = 1 + D x^2 y^2 over the field, and their one encoding. */
module BabyJubjub {
  import opened Common
  import opened Digits
  import opened Modular
  import opened PrimeField
  import opened ModularRoots
  import opened Field
  import Curve

  const A: nat := 168700
  const D: nat := 168696

  /** The curve's modulus and coefficients. */
  const CURVE: Curve.Params := Curve.Params(P, A, D)

  datatype Point = Point(x: int, y: int)

  type Byte = x: nat | x < 256

  predicate OnCurve(p: Point) {
    IsCanonical(p.x) && IsCanonical(p.y) &&
    var x2, y2 := Square(p.x), Square(p.y);
    Field.Add(Mul(A, x2), y2) == Field.Add(1, Mul(Mul(D, x2), y2))
  }

  /** The points of the curve are those of its equation modulo the field's order. */
  lemma OnCurveIs(p: Point)
    ensures CURVE.Valid()
    ensures OnCurve(p) <==> p.x >= 0 && p.y >= 0 && Curve.On(CURVE, p.x, p.y)
  {
    hide MulMod;
  }

  // ---------------------------------------------------------------------------------------------
  // Encoding

  /** The sign bit, the highest of 32 bytes. */
  const TOP: nat := 0x8000000000000000_0000000000000000_0000000000000000_0000000000000000

  lemma TopIs()
    ensures 128 * Digits.Pow(256, 31) == TOP && Digits.Pow(256, 32) == 2 * TOP
  {
    assert Digits.Pow(256, 1) == 256 * Digits.Pow(256, 0) && Digits.Pow(256, 2) == 256 * Digits.Pow(256, 1);
    assert Digits.Pow(256, 3) == 256 * Digits.Pow(256, 2);
    PowSum(256, 3, 4);
    PowSum(256, 1, 3);
    PowSum(256, 7, 8);
    PowSum(256, 4, 4);
    PowSum(256, 15, 16);
    PowSum(256, 8, 8);
    assert Digits.Pow(256, 31) == Digits.Pow(256, 15) * Digits.Pow(256, 16);
    assert Digits.Pow(256, 32) == 256 * Digits.Pow(256, 31);
  }

  /** These are the bytes of a point: y little-endian, with the top bit set when x is high. */
  predicate Encodes(b: seq<Byte>, p: Point) {
    |b| == 32 && Val(b, 256) == p.y + if p.x > HALF then TOP else 0
  }

  /** Two encodings of a point are the same bytes. */
  lemma EncodingIsUnique(b: seq<Byte>, c: seq<Byte>, p: Point)
    requires Encodes(b, p) && Encodes(c, p)
    ensures b == c
  {
    ValIsUnique(b, c, 256);
  }

  lemma LastByte(b: seq<Byte>)
    requires |b| == 32
    ensures Val(b, 256) == Val(b[..31], 256) + b[31] * Digits.Pow(256, 31) && Val(b[..31], 256) < Digits.Pow(256, 31)
  {
    ValBelow(b[..31], 256);
  }

  /** Splits 32 bytes into a sign and the rest. */
  lemma SignSplits(b: seq<Byte>)
    requires |b| == 32
    ensures var y := Val(b[31 := b[31] % 128], 256);
            Val(b, 256) == y + (if b[31] >= 128 then TOP else 0) && y < TOP
  {
    var c: seq<Byte> := b[31 := b[31] % 128];
    assert c[..31] == b[..31];
    LastByte(b);
    LastByte(c);
    TopIs();
    SplitTop(Val(b[..31], 256), b[31], Digits.Pow(256, 31));
  }

  lemma SplitTop(low: nat, top: nat, p: nat)
    requires low < p && top < 256
    ensures low + top * p == low + (top % 128) * p + (if top >= 128 then 128 * p else 0)
    ensures low + (top % 128) * p < 128 * p
  {
    var rest: nat := top % 128;
    assert top == if top >= 128 then rest + 128 else rest;
    Joined(rest, p);
    DigitBelow(low, rest, 128, p);
  }

  lemma Joined(rest: nat, p: nat)
    ensures (rest + 128) * p == rest * p + 128 * p
  {
  }

  /** Encodes a point; it fails only for a y of more than 32 bytes. */
  method PackPoint(p: Point) returns (r: Result<seq<Byte>, RangeError>)
    ensures r.Err? <==> !(0 <= p.y < 2 * TOP)
    ensures OnCurve(p) ==> r.Ok? && Encodes(r.value, p)
  {
    TopIs();
    if p.y < 0 || p.y >= 2 * TOP {
      return Err(RangeError);
    }
    var out: seq<Byte> := seq(32, i requires 0 <= i < 32 => DigitOf(p.y, i, 256));
    DigitsOf(p.y, out, 256);
    QuotientIs(p.y, Digits.Pow(256, 32), 0, p.y);
    if p.x > HALF {
      SignSplits(out);
      var top: Byte := if out[31] < 128 then out[31] + 128 else out[31];
      var signed: seq<Byte> := out[31 := top];
      if p.y < TOP {
        assert out[31 := out[31] % 128] == out;
        SignSplits(signed);
        assert signed[31 := signed[31] % 128] == out;
      }
      return Ok(signed);
    }
    return Ok(out);
  }

  /** The y that 32 bytes encode, without the sign bit. */
  function EncodedY(bytes: seq<Byte>): nat
    requires |bytes| == 32
  {
    Val(bytes[31 := bytes[31] % 128], 256)
  }

  /** Bytes encode the points of the curve with their y, and their sign of x. */
  lemma EncodesSigned(bytes: seq<Byte>, q: Point)
    requires |bytes| == 32 && CURVE.Valid()
    ensures OnCurve(q) && Encodes(bytes, q)
            <==> q.x >= 0 && q.y == EncodedY(bytes) && Curve.Signed(CURVE, q.x, q.y, bytes[31] >= 128)
  {
    SignSplits(bytes);
    OnCurveIs(q);
    hide Val, MulMod, OnCurve;
    CanonicalIsSmall();
  }

  lemma CanonicalIsSmall()
    ensures P < TOP
  {
  }

  /** Decodes a point: what it accepts is a point of the curve that encodes to these bytes, and it accepts
      every such encoding. Only the second half needs 5 to be no square. */
  method UnpackPoint(bytes: seq<Byte>) returns (p: Option<Point>)
    ensures Prime(P) && p.Some? ==> forall q :: p == Some(q) <==> OnCurve(q) && Encodes(bytes, q)
    ensures IsField() ==> forall q :: p == Some(q) <==> OnCurve(q) && Encodes(bytes, q)
  {
    if |bytes| != 32 {
      return None;
    }
    OnCurveIs(Point(0, 0));
    hide Val, MulMod, OnCurve, Encodes;
    var sign := bytes[31] >= 128;
    var y: nat := EncodedY(bytes);
    if y >= P {
      NoPoint(bytes);
      return None;
    }
    var y2: nat := Square(y);
    var den: nat := Sub(A, Mul(D, y2));
    Parts(y);
    if den == 0 {
      Curve.NoDenominator(CURVE, y, sign);
      NoPoint(bytes);
      return None;
    }
    var i := Inv(den);
    QuotientIs(den, P, 0, den);
    var w: nat := Mul(Sub(1, y2), i.value);
    var x := Sqrt(w);
    if x == None || (x == Some(0) && sign) {
      if IsField() {
        if x == Some(0) {
          RootOfZero(w);
        }
        Curve.NoRoot(CURVE, y, sign, i.value);
        NoPoint(bytes);
      }
      return None;
    }
    var r: nat := x.value;
    p := Some(Point(if IsHigh(r) == sign then r else Neg(r), y));
    if Prime(P) {
      QuotientIs(w, P, 0, w);
      Curve.RootDecodes(CURVE, y, sign, i.value, r, p.value.x);
      OnlyPoint(bytes, p.value.x);
    }
  }

  /** These are what the decoding computes. */
  lemma Parts(y: nat)
    requires y < P && CURVE.Valid()
    ensures Sub(A, Mul(D, Square(y))) == Curve.Denominator(CURVE, y)
    ensures Sub(1, Square(y)) == Curve.Numerator(CURVE, y)
  {
    hide MulMod;
  }

  /** Bytes encode no point when no x has their sign. */
  lemma NoPoint(bytes: seq<Byte>)
    requires |bytes| == 32 && CURVE.Valid()
    requires Curve.NoneSigned(CURVE, EncodedY(bytes), bytes[31] >= 128)
    ensures forall q :: !(OnCurve(q) && Encodes(bytes, q))
  {
    hide Val, MulMod, OnCurve, Encodes;
    forall q
      ensures !(OnCurve(q) && Encodes(bytes, q))
    {
      EncodesSigned(bytes, q);
    }
  }

  /** An x with their sign makes the only point that bytes encode. */
  lemma OnlyPoint(bytes: seq<Byte>, x: nat)
    requires Prime(P) && |bytes| == 32 && CURVE.Valid()
    requires Curve.Signed(CURVE, x, EncodedY(bytes), bytes[31] >= 128)
    ensures forall q :: q == Point(x, EncodedY(bytes)) <==> OnCurve(q) && Encodes(bytes, q)
  {
    hide Val, MulMod, OnCurve, Encodes, Prime;
    forall q
      ensures q == Point(x, EncodedY(bytes)) <==> OnCurve(q) && Encodes(bytes, q)
    {
      EncodesSigned(bytes, q);
      if OnCurve(q) && Encodes(bytes, q) {
        Curve.OneSigned(CURVE, x, q.x, q.y, bytes[31] >= 128);
      }
    }
  }

  lemma RootOfZero(w: nat)
    requires w < P && MulMod(0, 0, P) == w % P
    ensures w == 0
  {
    QuotientIs(w, P, 0, w);
    QuotientIs(0, P, 0, 0);
  }

  /** One encoding per point and one point per encoding. */
  lemma OnePointPerEncoding(b: seq<Byte>, c: seq<Byte>, p: Point, q: Point)
    requires OnCurve(p) && OnCurve(q) && Encodes(b, p) && Encodes(c, q)
    requires Prime(P)
    ensures b == c <==> p == q
  {
    if p == q {
      EncodingIsUnique(b, c, p);
    }
    if b == c {
      OnCurveIs(p);
      hide Val, MulMod, OnCurve, Prime;
      EncodesSigned(b, p);
      EncodesSigned(b, q);
      Curve.OneSigned(CURVE, p.x, q.x, p.y, b[31] >= 128);
    }
  }
}
