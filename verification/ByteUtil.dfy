/** Joining, splitting and packing bytes (axolotl/util/byteutil.py). */
module ByteUtil {
  import opened Wrappers
  import opened Curve

  // ----- joining and splitting -----

  datatype Part = Octets(bytes: seq<byte>) | Octet(value: byte)

  function Bytes(p: Part): seq<byte>
  {
    match p
    case Octets(bytes) => bytes
    case Octet(value) => [value]
  }

  function Joined(parts: seq<Part>): seq<byte>
  {
    if parts == [] then [] else Joined(parts[..|parts| - 1]) + Bytes(parts[|parts| - 1])
  }

  method Combine(parts: seq<Part>) returns (baos: seq<byte>)
    ensures baos == Joined(parts)
  {
    baos := [];
    for i := 0 to |parts|
      invariant baos == Joined(parts[..i])
    {
      assert parts[..i + 1][..i] == parts[..i];
      baos := baos + Bytes(parts[i]);
    }
    assert parts[..|parts|] == parts;
  }

  /** Where Python puts a slice bound: negative bounds count from the end, and all are clamped. */
  function Bound(i: int, n: nat): (r: nat)
    ensures r <= n
  {
    if i < 0 then (if i + n < 0 then 0 else i + n) else if i < n then i else n
  }

  function Slice(s: seq<byte>, from: int, to: int): seq<byte>
  {
    var a, b := Bound(from, |s|), Bound(to, |s|);
    if a <= b then s[a..b] else []
  }

  method Split(inp: seq<byte>, firstLength: int, secondLength: int, thirdLength: Option<int>)
    returns (parts: seq<seq<byte>>)
    ensures var start := firstLength + secondLength;
            parts == [Slice(inp, 0, firstLength), Slice(inp, firstLength, start)]
                     + if thirdLength.Some? then [Slice(inp, start, start + thirdLength.value)] else []
  {
    parts := [];
    parts := parts + [Slice(inp, 0, firstLength)];
    parts := parts + [Slice(inp, firstLength, firstLength + secondLength)];
    if thirdLength.Some? {
      parts := parts + [Slice(inp, firstLength + secondLength, firstLength + secondLength + thirdLength.value)];
    }
  }

  lemma JoinedParts(a: Part, b: Part, c: Part)
    ensures Joined([a, b]) == Bytes(a) + Bytes(b)
    ensures Joined([a, b, c]) == Bytes(a) + Bytes(b) + Bytes(c)
  {
    assert Joined([a]) == Bytes(a);
    assert [a, b][..1] == [a];
    assert [a, b, c][..2] == [a, b];
  }

  /** Splitting at the lengths of the parts undoes joining them. */
  lemma SplitUndoesCombine(a: seq<byte>, b: seq<byte>, c: seq<byte>)
    ensures var s := Joined([Octets(a), Octets(b), Octets(c)]);
            && Slice(s, 0, |a|) == a
            && Slice(s, |a|, |a| + |b|) == b
            && Slice(s, |a| + |b|, |a| + |b| + |c|) == c
  {
    JoinedParts(Octets(a), Octets(b), Octets(c));
  }

  /** Joining the parts of a split gives the input back exactly when the lengths, none negative, reach its end. */
  lemma CombineUndoesSplit(s: seq<byte>, first: nat, second: nat, third: nat)
    ensures Slice(s, 0, first) + Slice(s, first, first + second) + Slice(s, first + second, first + second + third) == s
            <==> |s| <= first + second + third
  {
    var a, b := Slice(s, 0, first), Slice(s, first, first + second);
    var c := Slice(s, first + second, first + second + third);
    assert |a + b + c| <= first + second + third;
    if |s| <= first + second + third {
      var i, j := Bound(first, |s|), Bound(first + second, |s|);
      assert a == s[..i] && b == s[i..j] && c == s[j..];
    }
  }

  // ----- bits -----

  /** `a | b` on non-negative integers. */
  function Or(a: nat, b: nat): nat
  {
    if a == 0 && b == 0 then 0
    else 2 * Or(a / 2, b / 2) + if a % 2 == 1 || b % 2 == 1 then 1 else 0
  }

  lemma {:induction false} OrZero(a: nat)
    ensures Or(a, 0) == a
  {
    if a > 0 {
      OrZero(a / 2);
    }
  }

  lemma {:induction false} OrDoubled(a: nat, b: nat)
    ensures Or(2 * a, b) == 2 * Or(a, b / 2) + b % 2
  {
  }

  lemma {:induction false} OrTimes4(a: nat, b: nat)
    ensures Or(4 * a, b) == 4 * Or(a, b / 4) + b % 4
  {
    OrDoubled(2 * a, b);
    OrDoubled(a, b / 2);
    assert b / 2 / 2 == b / 4;
  }

  /** The low bits of a shifted value are those of the other operand. */
  lemma {:induction false} OrTimes16(a: nat, b: nat)
    ensures Or(16 * a, b) == 16 * Or(a, b / 16) + b % 16
  {
    OrTimes4(4 * a, b);
    OrTimes4(a, b / 4);
    assert b / 4 / 4 == b / 16;
  }

  lemma {:induction false} OrTimes32(a: nat, b: nat)
    ensures Or(32 * a, b) == 32 * Or(a, b / 32) + b % 32
  {
    OrDoubled(16 * a, b);
    OrTimes16(a, b / 2);
    assert b / 2 / 16 == b / 32;
  }

  function IntsToByteHighAndLow(high: nat, low: nat): byte
  {
    (Or(16 * high, low) % 256) as byte
  }

  function HighBitsToInt(value: byte): nat
  {
    value as nat / 16
  }

  function LowBitsToInt(value: byte): nat
  {
    value as nat % 16
  }

  lemma LowOfByte(high: nat, low: nat)
    requires low < 16
    ensures (16 * high + low) % 256 == 16 * (high % 16) + low
  {
    var q, x := high / 16, 16 * (high % 16) + low;
    assert 16 * high + low == 256 * q + x;
    assert x < 256;
  }

  lemma NibblesOf(value: nat, high: nat, low: nat)
    requires low < 16 && high < 16 && value == 16 * high + low
    ensures value / 16 == high && value % 16 == low
  {
  }

  /** The first value goes into the high nibble, so that versions 3 and 3 make the byte 0x33. */
  lemma NibblesAreOrdered(high: nat, low: nat)
    requires high < 16 && low < 16
    ensures IntsToByteHighAndLow(high, low) as nat == 16 * high + low
  {
    OrTimes16(high, low);
    OrZero(high);
    hide Or;
    assert low / 16 == 0 && low % 16 == low;
    LowOfByte(high, low);
  }

  /** The low nibble is kept; the high one is kept modulo 16, unless the low value spills into it. */
  lemma NibblesRoundTrip(high: nat, low: nat)
    ensures LowBitsToInt(IntsToByteHighAndLow(high, low)) == low % 16
    ensures low < 16 ==> HighBitsToInt(IntsToByteHighAndLow(high, low)) == high % 16
  {
    var merged := Or(high, low / 16);
    OrTimes16(high, low);
    OrZero(high);
    hide Or;
    LowOfByte(merged, low % 16);
    NibblesOf(IntsToByteHighAndLow(high, low) as nat, merged % 16, low % 16);
  }
}
