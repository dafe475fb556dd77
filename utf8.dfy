/**
 * UTF-8 encoding of strings (`Encoding.UTF8.GetBytes`) and the UTF-16 length
 * of a string (`string.Length` in .NET). A Dafny `char` is a Unicode scalar
 * value, so every character encodes to one to four bytes and occupies one or
 * two UTF-16 code units.
 */
module Utf8 {
  import opened Bytes

  predicate IsAscii(c: char) {
    c as int < 0x80
  }

  predicate AllAscii(s: string) {
    forall i :: 0 <= i < |s| ==> IsAscii(s[i])
  }

  /** The UTF-8 bytes of one scalar value. */
  function EncodeScalar(c: char): (bs: seq<byte>)
    ensures 1 <= |bs| <= 4
    ensures |bs| == SequenceLength(bs[0])
  {
    // n1, n2, n3: the value with its last one, two, three 6-bit groups shifted out
    var n := c as int;
    var n1 := n / 0x40;
    var n2 := n1 / 0x40;
    var n3 := n2 / 0x40;
    if n < 0x80 then [n]
    else if n < 0x800 then [0xC0 + n1, 0x80 + n % 0x40]
    else if n < 0x1_0000 then [0xE0 + n2, 0x80 + n1 % 0x40, 0x80 + n % 0x40]
    else [0xF0 + n3, 0x80 + n2 % 0x40, 0x80 + n1 % 0x40, 0x80 + n % 0x40]
  }

  /** The scalar value a well-formed one- to four-byte sequence stands for. */
  function ScalarValue(bs: seq<byte>): int
    requires 1 <= |bs| <= 4
  {
    if |bs| == 1 then bs[0] as int
    else if |bs| == 2 then (bs[0] as int - 0xC0) * 0x40 + (bs[1] as int - 0x80)
    else if |bs| == 3 then ((bs[0] as int - 0xE0) * 0x40 + (bs[1] as int - 0x80)) * 0x40 + (bs[2] as int - 0x80)
    else (((bs[0] as int - 0xF0) * 0x40 + (bs[1] as int - 0x80)) * 0x40 + (bs[2] as int - 0x80)) * 0x40 + (bs[3] as int - 0x80)
  }

  /** How many bytes a UTF-8 sequence has, read off its lead byte. */
  function SequenceLength(lead: byte): nat {
    if lead < 0x80 then 1
    else if lead < 0xE0 then 2
    else if lead < 0xF0 then 3
    else 4
  }

  /** `Encoding.UTF8.GetBytes(s)`. */
  function Encode(s: string): (bs: seq<byte>)
    ensures |bs| >= |s|
    ensures s == [] <==> bs == []
  {
    if s == [] then [] else EncodeScalar(s[0]) + Encode(s[1..])
  }

  /** UTF-16 code units of one scalar value: two for a surrogate pair. */
  function Utf16Units(c: char): nat {
    if c as int < 0x1_0000 then 1 else 2
  }

  /** `s.Length` in .NET: the number of UTF-16 code units. */
  function Utf16Length(s: string): nat {
    if s == [] then 0 else Utf16Units(s[0]) + Utf16Length(s[1..])
  }

  lemma {:induction false} EncodeAppend(a: string, b: string)
    ensures Encode(a + b) == Encode(a) + Encode(b)
  {
    if a == [] {
      assert a + b == b;
    } else {
      assert (a + b)[0] == a[0];
      assert (a + b)[1..] == a[1..] + b;
      EncodeAppend(a[1..], b);
    }
  }

  lemma {:induction false} Utf16LengthAppend(a: string, b: string)
    ensures Utf16Length(a + b) == Utf16Length(a) + Utf16Length(b)
  {
    if a == [] {
      assert a + b == b;
    } else {
      assert (a + b)[0] == a[0];
      assert (a + b)[1..] == a[1..] + b;
      Utf16LengthAppend(a[1..], b);
    }
  }

  /**
   * A string never has more UTF-16 code units than UTF-8 bytes, and has
   * exactly as many when and only when it is all ASCII.
   */
  lemma {:induction false} Utf16LengthAtMostEncoded(s: string)
    ensures Utf16Length(s) <= |Encode(s)|
    ensures Utf16Length(s) == |Encode(s)| <==> AllAscii(s)
  {
    if s != [] {
      Utf16LengthAtMostEncoded(s[1..]);
      assert AllAscii(s) <==> IsAscii(s[0]) && AllAscii(s[1..]) by {
        if IsAscii(s[0]) && AllAscii(s[1..]) {
          forall i | 0 <= i < |s| ensures IsAscii(s[i]) {
            if i > 0 { assert s[i] == s[1..][i - 1]; }
          }
        }
      }
    }
  }

  /** Reading an encoded scalar back gives the scalar value. */
  lemma ScalarValueOfEncoded(c: char)
    ensures ScalarValue(EncodeScalar(c)) == c as int
  {
    var n := c as int;
    var n1 := n / 0x40;
    var n2 := n1 / 0x40;
    var n3 := n2 / 0x40;
    assert n == n1 * 0x40 + n % 0x40;
    assert n1 == n2 * 0x40 + n1 % 0x40;
    assert n2 == n3 * 0x40 + n2 % 0x40;
  }

  lemma EncodeScalarInjective(c: char, d: char)
    requires EncodeScalar(c) == EncodeScalar(d)
    ensures c == d
  {
    ScalarValueOfEncoded(c);
    ScalarValueOfEncoded(d);
  }

  /** Distinct strings have distinct UTF-8 encodings. */
  lemma {:induction false} EncodeInjective(s: string, t: string)
    requires Encode(s) == Encode(t)
    ensures s == t
  {
    if s != [] && t != [] {
      var es, et := EncodeScalar(s[0]), EncodeScalar(t[0]);
      var bs := Encode(s);
      assert es[0] == bs[0] == et[0];
      assert |es| == |et|;
      assert es == bs[..|es|] == et;
      EncodeScalarInjective(s[0], t[0]);
      assert Encode(s[1..]) == bs[|es|..] == Encode(t[1..]);
      EncodeInjective(s[1..], t[1..]);
      assert s == [s[0]] + s[1..];
      assert t == [t[0]] + t[1..];
    }
  }
}
