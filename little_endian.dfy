/**
 * Unsigned little-endian byte strings: the `w`-byte encoding of a number (least significant byte
 * first) and the number a byte string denotes, with the round trips between them.
 */
module LittleEndian {
  import opened Common

  /** The low `w` bytes of `v`, least significant first. */
  function LeBytes(v: nat, w: nat): (r: seq<byte>)
    ensures |r| == w
  {
    if w == 0 then [] else [(v % 256) as byte] + LeBytes(v / 256, w - 1)
  }

  /** The number a little-endian byte string denotes. */
  function LeValue(s: seq<byte>): nat
  {
    if s == [] then 0 else s[0] as nat + 256 * LeValue(s[1..])
  }

  /** A `w`-byte string denotes a number below 256^w. */
  lemma {:induction false} LeValueBound(s: seq<byte>)
    ensures LeValue(s) < Pow(256, |s|)
  {
    if s != [] {
      LeValueBound(s[1..]);
      assert LeValue(s[1..]) + 1 <= Pow(256, |s| - 1);
      assert 256 * (LeValue(s[1..]) + 1) <= 256 * Pow(256, |s| - 1);
    }
  }

  /** Decoding an encoding gives the number back, when it fits in `w` bytes. */
  lemma {:induction false} LeValueOfLeBytes(v: nat, w: nat)
    requires v < Pow(256, w)
    ensures LeValue(LeBytes(v, w)) == v
  {
    if w == 0 {
    } else {
      var s := LeBytes(v, w);
      assert s[1..] == LeBytes(v / 256, w - 1);
      assert v / 256 < Pow(256, w - 1) by {
        assert v < 256 * Pow(256, w - 1);
      }
      LeValueOfLeBytes(v / 256, w - 1);
    }
  }

  /** Encoding what a byte string denotes, in as many bytes, gives the string back. */
  lemma {:induction false} LeBytesOfLeValue(s: seq<byte>)
    ensures LeBytes(LeValue(s), |s|) == s
  {
    if s != [] {
      var v := LeValue(s);
      assert v % 256 == s[0] as nat && v / 256 == LeValue(s[1..]);
      LeBytesOfLeValue(s[1..]);
      assert s == [s[0]] + s[1..];
    }
  }

  /** The number a concatenation denotes: the first part, plus the second shifted past it. */
  lemma {:induction false} LeValueAppend(a: seq<byte>, b: seq<byte>)
    ensures LeValue(a + b) == LeValue(a) + Pow(256, |a|) * LeValue(b)
  {
    if a != [] {
      assert (a + b)[1..] == a[1..] + b;
      LeValueAppend(a[1..], b);
      var x, p, y := LeValue(a[1..]), Pow(256, |a| - 1), LeValue(b);
      var q := p * y;
      assert LeValue(a + b) == a[0] as nat + 256 * (x + q);
      assert Pow(256, |a|) * y == 256 * q by {
        assert Pow(256, |a|) == 256 * p;
      }
    } else {
      assert a + b == b;
    }
  }

  /** 256^8 is 2^64 and 256^16 is 2^128. */
  lemma PowersOfTwo()
    ensures Pow(256, 8) == TWO_POW_64 && Pow(256, 16) == TWO_POW_128
  {
  }
}
