/** Byte strings, their little- and big-endian integers, and hexadecimal text. */
module Bytes {
  import opened Wrappers

  type Byte = b: int | 0 <= b < 256

  function Pow256(n: nat): (r: nat)
    ensures r > 0
  {
    if n == 0 then 1 else 256 * Pow256(n - 1)
  }

  /** `BigUint::from_bytes_le`. */
  function FromLE(s: seq<Byte>): (r: nat) {
    if s == [] then 0 else s[0] + 256 * FromLE(s[1..])
  }

  /** `to_le_bytes` into a fixed width; higher digits are cut off. */
  function ToLE(n: nat, width: nat): (s: seq<Byte>)
    ensures |s| == width
  {
    if width == 0 then [] else [n % 256] + ToLE(n / 256, width - 1)
  }

  function Zeros(n: nat): (s: seq<Byte>)
    ensures |s| == n && forall i :: 0 <= i < n ==> s[i] == 0
  {
    seq(n, _ => 0)
  }

  function Reverse(s: seq<Byte>): (r: seq<Byte>)
    ensures |r| == |s| && forall i :: 0 <= i < |s| ==> r[i] == s[|s| - 1 - i]
  {
    seq(|s|, i requires 0 <= i < |s| => s[|s| - 1 - i])
  }

  /** `to_be_bytes` into a fixed width. */
  function ToBE(n: nat, width: nat): (s: seq<Byte>)
    ensures |s| == width
  {
    Reverse(ToLE(n, width))
  }

  lemma {:induction false} FromLEBound(s: seq<Byte>)
    ensures FromLE(s) < Pow256(|s|)
  {
    if s != [] { FromLEBound(s[1..]); }
  }

  lemma {:induction false} FromLEInjective(a: seq<Byte>, b: seq<Byte>)
    requires |a| == |b| && FromLE(a) == FromLE(b)
    ensures a == b
  {
    if a != [] {
      assert FromLE(a) == a[0] + 256 * FromLE(a[1..]) && FromLE(b) == b[0] + 256 * FromLE(b[1..]);
      assert FromLE(a[1..]) == FromLE(b[1..]);
      FromLEInjective(a[1..], b[1..]);
      assert a == [a[0]] + a[1..] && b == [b[0]] + b[1..];
    }
  }

  lemma {:induction false} FromLEConcatZeros(a: seq<Byte>, n: nat)
    ensures FromLE(a + Zeros(n)) == FromLE(a)
    decreases |a| + n
  {
    var s := a + Zeros(n);
    if a != [] {
      assert s[1..] == a[1..] + Zeros(n);
      FromLEConcatZeros(a[1..], n);
    } else if n > 0 {
      assert s[1..] == [] + Zeros(n - 1);
      FromLEConcatZeros([], n - 1);
    } else {
      assert s == [];
    }
  }

  lemma {:induction false} FromLEOfToLE(n: nat, width: nat)
    requires n < Pow256(width)
    ensures FromLE(ToLE(n, width)) == n
  {
    if width > 0 {
      assert n / 256 < Pow256(width - 1);
      FromLEOfToLE(n / 256, width - 1);
      assert ToLE(n, width)[1..] == ToLE(n / 256, width - 1);
    }
  }

  lemma ToLEInjective(m: nat, n: nat, width: nat)
    requires m < Pow256(width) && n < Pow256(width)
    requires ToLE(m, width) == ToLE(n, width)
    ensures m == n
  {
    FromLEOfToLE(m, width);
    FromLEOfToLE(n, width);
  }

  lemma ToBEInjective(m: nat, n: nat, width: nat)
    requires m < Pow256(width) && n < Pow256(width)
    requires ToBE(m, width) == ToBE(n, width)
    ensures m == n
  {
    var a, b := ToLE(m, width), ToLE(n, width);
    forall i | 0 <= i < width ensures a[i] == b[i] {
      assert Reverse(a)[width - 1 - i] == Reverse(b)[width - 1 - i];
    }
    assert a == b;
    ToLEInjective(m, n, width);
  }

  lemma Pow256Values()
    ensures Pow256(2) == 65536
    ensures Pow256(8) == 0x1_0000_0000_0000_0000
    ensures Pow256(16) == 0x1_0000_0000_0000_0000_0000_0000_0000_0000
  {
    assert Pow256(2) == 256 * Pow256(1);
    assert Pow256(4) == 256 * Pow256(3);
    assert Pow256(6) == 256 * Pow256(5);
    assert Pow256(8) == 256 * Pow256(7);
    assert Pow256(10) == 256 * Pow256(9);
    assert Pow256(12) == 256 * Pow256(11);
    assert Pow256(14) == 256 * Pow256(13);
    assert Pow256(16) == 256 * Pow256(15);
  }

  function HexDigit(d: nat): (c: char)
    requires d < 16
  {
    if d < 10 then '0' + d as char else 'a' + (d - 10) as char
  }

  function HexValue(c: char): (r: Option<nat>)
    ensures r.Some? ==> r.value < 16
  {
    if '0' <= c <= '9' then Some((c - '0') as int)
    else if 'a' <= c <= 'f' then Some((c - 'a') as int + 10)
    else if 'A' <= c <= 'F' then Some((c - 'A') as int + 10)
    else None
  }

  /** `hex::encode`: two lower-case digits for each byte. */
  function HexEncode(s: seq<Byte>): (r: string) {
    if s == [] then "" else [HexDigit(s[0] / 16), HexDigit(s[0] % 16)] + HexEncode(s[1..])
  }

  /** `hex::decode`. */
  function HexDecode(t: string): (r: Option<seq<Byte>>) {
    if t == [] then Some([])
    else if |t| == 1 then None
    else match (HexValue(t[0]), HexValue(t[1]), HexDecode(t[2..]))
      case (Some(hi), Some(lo), Some(rest)) => Some([16 * hi + lo] + rest)
      case _ => None
  }

  lemma {:induction false} HexRoundTrip(s: seq<Byte>)
    ensures HexDecode(HexEncode(s)) == Some(s)
  {
    if s != [] {
      var t := HexEncode(s);
      assert t[2..] == HexEncode(s[1..]);
      HexRoundTrip(s[1..]);
      assert HexValue(HexDigit(s[0] / 16)) == Some(s[0] / 16);
      assert HexValue(HexDigit(s[0] % 16)) == Some(s[0] % 16);
      assert t[0] == HexDigit(s[0] / 16) && t[1] == HexDigit(s[0] % 16);
      assert s == [16 * (s[0] / 16) + s[0] % 16] + s[1..];
    }
  }

  lemma BigEndianRoundTrip(n: nat, width: nat)
    ensures n < Pow256(width) ==> FromLE(Reverse(ToBE(n, width))) == n
  {
    assert Reverse(ToBE(n, width)) == ToLE(n, width);
    if n < Pow256(width) { FromLEOfToLE(n, width); }
  }

  /** Hexadecimal digits are written in lower case. */
  lemma {:induction false} HexIsLowerCase(s: seq<Byte>, i: nat)
    requires i < |HexEncode(s)|
    ensures HexEncode(s)[i] in "0123456789abcdef"
  {
    if s != [] {
      if i < 2 {
        LowerCaseDigit(if i == 0 then s[0] / 16 else s[0] % 16);
      } else {
        assert HexEncode(s)[i] == HexEncode(s[1..])[i - 2];
        HexIsLowerCase(s[1..], i - 2);
      }
    }
  }

  lemma LowerCaseDigit(d: nat)
    requires d < 16
    ensures HexDigit(d) in "0123456789abcdef"
  {
    assert HexDigit(d) == "0123456789abcdef"[d];
  }
}
