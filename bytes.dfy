/** Bytes and their uppercase hexadecimal rendering (`Convert.ToHexString`). */
module Bytes {

  type byte = x: int | 0 <= x < 256

  const HexDigits: string := "0123456789ABCDEF"

  /** One byte as two uppercase hexadecimal digits, high nibble first. */
  function HexPair(b: byte): string {
    [HexDigits[b / 16], HexDigits[b % 16]]
  }

  /** `Convert.ToHexString`: every byte becomes two uppercase hex digits. */
  function ToHexString(bs: seq<byte>): (s: string)
    ensures |s| == 2 * |bs|
    ensures forall i :: 0 <= i < |s| ==> s[i] in HexDigits
  {
    if bs == [] then "" else HexPair(bs[0]) + ToHexString(bs[1..])
  }

  lemma HexPairInjective(a: byte, b: byte)
    requires HexPair(a) == HexPair(b)
    ensures a == b
  {
    assert HexDigits[a / 16] == HexDigits[b / 16] && HexDigits[a % 16] == HexDigits[b % 16];
    assert a / 16 == b / 16 && a % 16 == b % 16;
  }

  /** Distinct digests render as distinct keys. */
  lemma {:induction false} ToHexStringInjective(a: seq<byte>, b: seq<byte>)
    requires ToHexString(a) == ToHexString(b)
    ensures a == b
  {
    if a != [] {
      var sa, sb := ToHexString(a), ToHexString(b);
      assert sa[..2] == HexPair(a[0]) && sb[..2] == HexPair(b[0]);
      HexPairInjective(a[0], b[0]);
      assert sa[2..] == ToHexString(a[1..]) && sb[2..] == ToHexString(b[1..]);
      ToHexStringInjective(a[1..], b[1..]);
    }
  }
}
