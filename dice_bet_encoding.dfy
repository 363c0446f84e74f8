/**
 * The dice game's bet serializer: `u128ToLeBytes` lays a 128-bit integer out as two 64-bit
 * little-endian halves in a 16-byte buffer, and `betToSlice` lays a bet out in a 66-byte buffer
 * (player, seed, slot, amount, roll, bump). Both fill a zero-initialised buffer range by range;
 * a 64-bit write of a value outside `u64` throws a range error instead.
 */
module DiceBetEncoding {
  import opened Common
  import opened LittleEndian

  /** The `RangeError`s a buffer write throws. */
  datatype RangeError =
    | ValueOutOfRange     // the value does not fit the integer type being written
    | BufferOutOfBounds   // the write would run past the end of the buffer

  /** `s` with the range from `start` on replaced by `x`. */
  function Overwrite(s: seq<byte>, start: nat, x: seq<byte>): (r: seq<byte>)
    requires start + |x| <= |s|
    ensures |r| == |s| && r[start..start + |x|] == x
  {
    s[..start] + x + s[start + |x|..]
  }

  /** Overwriting a range leaves every range before or after it as it was. */
  lemma OverwriteKeeps(s: seq<byte>, start: nat, x: seq<byte>, i: nat, j: nat)
    requires start + |x| <= |s| && i <= j <= |s|
    requires j <= start || start + |x| <= i
    ensures Overwrite(s, start, x)[i..j] == s[i..j]
  {
    var r := Overwrite(s, start, x);
    assert forall k | i <= k < j :: r[k] == s[k];
  }

  /**
   * `buf.writeBigUInt64LE(value, offset)`: the value must be a `u64` and the eight bytes must lie
   * inside the buffer (checked in that order); the bytes at `offset .. offset + 8` then hold the
   * value little-endian, and no other byte changes.
   */
  method WriteBigUInt64LE(buf: array<byte>, value: int, offset: int) returns (r: Outcome<RangeError>)
    modifies buf
    ensures r.Pass? <==> 0 <= value < TWO_POW_64 && 0 <= offset && offset + 8 <= buf.Length
    ensures !(0 <= value < TWO_POW_64) ==> r == Fail(ValueOutOfRange)
    ensures r.Pass? ==> buf[..] == Overwrite(old(buf[..]), offset, LeBytes(value, 8))
    ensures r.Fail? ==> buf[..] == old(buf[..])
  {
    if value < 0 || value >= TWO_POW_64 {
      return Fail(ValueOutOfRange);
    }
    if offset < 0 || offset + 8 > buf.Length {
      return Fail(BufferOutOfBounds);
    }
    var rest: nat := value;
    var i := 0;
    while i < 8
      invariant 0 <= i <= 8
      invariant LeBytes(value, 8) == buf[offset..offset + i] + LeBytes(rest, 8 - i)
      invariant buf[..offset] == old(buf[..offset]) && buf[offset + 8..] == old(buf[offset + 8..])
    {
      buf[offset + i] := (rest % 256) as byte;
      rest := rest / 256;
      i := i + 1;
    }
    assert buf[..] == buf[..offset] + buf[offset..offset + 8] + buf[offset + 8..];
    r := Pass;
  }

  /**
   * `src.copy(buf, start)`: as many leading bytes of `src` as fit go to `buf` from `start` on, and
   * no other byte changes.
   */
  method CopyInto(src: seq<byte>, buf: array<byte>, start: nat)
    requires start <= buf.Length
    modifies buf
    ensures var n := if |src| <= buf.Length - start then |src| else buf.Length - start;
            buf[..] == Overwrite(old(buf[..]), start, src[..n])
  {
    var n := if |src| <= buf.Length - start then |src| else buf.Length - start;
    var i := 0;
    while i < n
      invariant 0 <= i <= n
      invariant buf[start..start + i] == src[..i]
      invariant buf[..start] == old(buf[..start]) && buf[start + n..] == old(buf[start + n..])
    {
      buf[start + i] := src[i];
      i := i + 1;
    }
    assert buf[..] == buf[..start] + buf[start..start + n] + buf[start + n..];
  }

  /**
   * `u128ToLeBytes(n)`: the low 64 bits (`n & 0xFFFFFFFFFFFFFFFF`) go to bytes 0 .. 8 and
   * `n >> 64` to bytes 8 .. 16. On integers these are `n mod 2^64` and `floor(n / 2^64)`, for
   * negative `n` too. The low half always fits; the high half fits exactly when `0 <= n < 2^128`,
   * and then the 16 bytes are the little-endian encoding of `n`.
   */
  method U128ToLeBytes(n: int) returns (r: Result<seq<byte>, RangeError>)
    ensures r.Ok? <==> 0 <= n < TWO_POW_128
    ensures r.Err? ==> r.error == ValueOutOfRange
    ensures r.Ok? ==> && |r.value| == 16
                      && r.value[..8] == LeBytes(n % TWO_POW_64, 8)
                      && r.value[8..] == LeBytes(n / TWO_POW_64, 8)
    ensures r.Ok? ==> LeValue(r.value) == n && r.value == LeBytes(n, 16)
  {
    var buf := new byte[16](_ => 0);
    var lo := n % TWO_POW_64;
    var hi := n / TWO_POW_64;
    HighHalfFits(n);
    var written := WriteBigUInt64LE(buf, lo, 0);
    assert written.Pass?;  // the low half is always a u64
    written := WriteBigUInt64LE(buf, hi, 8);
    if written.Fail? {
      return Err(written.error);
    }
    var bytes := buf[..];
    assert bytes[..8] == LeBytes(lo, 8) && bytes[8..] == LeBytes(hi, 8);
    U128Value(n, bytes);
    r := Ok(bytes);
  }

  /** `n >> 64` is a `u64` exactly when `n` is a `u128`. */
  lemma HighHalfFits(n: int)
    ensures 0 <= n / TWO_POW_64 < TWO_POW_64 <==> 0 <= n < TWO_POW_128
  {
    var q := n / TWO_POW_64;
    assert n == TWO_POW_64 * q + n % TWO_POW_64;
    if q < 0 {
      assert n < 0;
    } else if q >= TWO_POW_64 {
      assert TWO_POW_64 * q >= TWO_POW_64 * TWO_POW_64;
    } else {
      assert TWO_POW_64 * q <= TWO_POW_64 * (TWO_POW_64 - 1);
    }
  }

  /** Two 8-byte halves holding `n mod 2^64` and `n div 2^64` denote `n` and are its encoding. */
  lemma U128Value(n: int, bytes: seq<byte>)
    requires 0 <= n < TWO_POW_128 && |bytes| == 16
    requires bytes[..8] == LeBytes(n % TWO_POW_64, 8) && bytes[8..] == LeBytes(n / TWO_POW_64, 8)
    ensures LeValue(bytes) == n && bytes == LeBytes(n, 16)
  {
    PowersOfTwo();
    HighHalfFits(n);
    LeValueOfLeBytes(n % TWO_POW_64, 8);
    LeValueOfLeBytes(n / TWO_POW_64, 8);
    assert bytes == bytes[..8] + bytes[8..];
    LeValueAppend(bytes[..8], bytes[8..]);
    LeBytesOfLeValue(bytes);
  }

  // ---------------------------------------------------------------------------------------------
  // Bets

  /** The fields of a bet as the test holds them: big integers and plain numbers. */
  datatype Bet = Bet(player: Pubkey, seed: int, slot: int, amount: int, roll: int, bump: int)

  /** The bets `betToSlice` can lay out: a `u128` seed, a `u64` slot and a `u64` amount. */
  predicate Encodable(b: Bet)
  {
    0 <= b.seed < TWO_POW_128 && 0 <= b.slot < TWO_POW_64 && 0 <= b.amount < TWO_POW_64
  }

  /** A byte index assignment stores a number modulo 256. */
  function ToUint8(x: int): byte
  {
    (x % 256) as byte
  }

  /**
   * The 66-byte layout of a bet: player at 0 .. 32, seed at 32 .. 48, slot at 48 .. 56, amount at
   * 56 .. 64, roll at 64 and bump at 65.
   */
  function EncodeBet(b: Bet): (r: seq<byte>)
    requires Encodable(b)
    ensures |r| == 66
  {
    b.player + (LeBytes(b.seed, 16) + (LeBytes(b.slot, 8) + (LeBytes(b.amount, 8) + [ToUint8(b.roll), ToUint8(b.bump)])))
  }

  /** Reads each field back from its byte range. */
  function DecodeBet(s: seq<byte>): Bet
    requires |s| == 66
  {
    Bet(s[..32], LeValue(s[32..48]), LeValue(s[48..56]), LeValue(s[56..64]), s[64] as int, s[65] as int)
  }

  /**
   * `betToSlice(bet)`: a zeroed 66-byte buffer filled range by range. It throws exactly when the
   * seed is not a `u128` or the slot or the amount is not a `u64`, and otherwise returns the
   * layout `EncodeBet` describes.
   */
  method BetToSlice(b: Bet) returns (r: Result<seq<byte>, RangeError>)
    ensures r.Ok? <==> Encodable(b)
    ensures r.Err? ==> r.error == ValueOutOfRange
    ensures r.Ok? ==> r.value == EncodeBet(b)
  {
    var buf := new byte[66](_ => 0);
    CopyInto(b.player, buf, 0);
    ghost var player := buf[..];
    var seedBytes := U128ToLeBytes(b.seed);
    if seedBytes.Err? {
      return Err(seedBytes.error);
    }
    CopyInto(seedBytes.value, buf, 32);
    ghost var seed := buf[..];
    var written := WriteBigUInt64LE(buf, b.slot, 48);
    if written.Fail? {
      return Err(written.error);
    }
    ghost var slot := buf[..];
    written := WriteBigUInt64LE(buf, b.amount, 56);
    if written.Fail? {
      return Err(written.error);
    }
    ghost var amount := buf[..];
    buf[64] := ToUint8(b.roll);
    buf[65] := ToUint8(b.bump);
    var bytes := buf[..];
    WritesMakeLayout(b, player, seed, slot, amount, bytes);
    r := Ok(bytes);
  }

  /** The four range writes and the two byte stores of `betToSlice`, in order, leave the layout. */
  lemma WritesMakeLayout(b: Bet, player: seq<byte>, seed: seq<byte>, slot: seq<byte>, amount: seq<byte>,
                         s: seq<byte>)
    requires Encodable(b) && |player| == 66 && player[..32] == b.player
    requires seed == Overwrite(player, 32, LeBytes(b.seed, 16))
    requires slot == Overwrite(seed, 48, LeBytes(b.slot, 8))
    requires amount == Overwrite(slot, 56, LeBytes(b.amount, 8))
    requires s == amount[64 := ToUint8(b.roll)][65 := ToUint8(b.bump)]
    ensures s == EncodeBet(b)
  {
    OverwriteKeeps(player, 32, LeBytes(b.seed, 16), 0, 32);
    OverwriteKeeps(seed, 48, LeBytes(b.slot, 8), 0, 32);
    OverwriteKeeps(seed, 48, LeBytes(b.slot, 8), 32, 48);
    OverwriteKeeps(slot, 56, LeBytes(b.amount, 8), 0, 32);
    OverwriteKeeps(slot, 56, LeBytes(b.amount, 8), 32, 48);
    OverwriteKeeps(slot, 56, LeBytes(b.amount, 8), 48, 56);
    assert s[..64] == amount[..64];
    LayoutIsEncodeBet(b, s);
  }

  /** Six ranges holding the six fields, in order, make up the layout of the bet. */
  lemma LayoutIsEncodeBet(b: Bet, s: seq<byte>)
    requires Encodable(b) && |s| == 66
    requires s[..32] == b.player && s[32..48] == LeBytes(b.seed, 16)
    requires s[48..56] == LeBytes(b.slot, 8) && s[56..64] == LeBytes(b.amount, 8)
    requires s[64] == ToUint8(b.roll) && s[65] == ToUint8(b.bump)
    ensures s == EncodeBet(b)
  {
    assert s[64..] == [ToUint8(b.roll), ToUint8(b.bump)];
    Peel(s, 56, 64);
    Peel(s, 48, 56);
    Peel(s, 32, 48);
    Peel(s, 0, 32);
  }

  /** A suffix of a byte string is the range up to `j` followed by the suffix from `j`. */
  lemma Peel(s: seq<byte>, i: nat, j: nat)
    requires i <= j <= |s|
    ensures s[i..] == s[i..j] + s[j..]
  {
    assert s[i..] == s[i..][..j - i] + s[i..][j - i..];
  }

  /** Decoding a laid-out bet gives it back, with roll and bump taken modulo 256. */
  lemma DecodeEncodeBet(b: Bet)
    requires Encodable(b)
    ensures DecodeBet(EncodeBet(b)) == b.(roll := b.roll % 256, bump := b.bump % 256)
  {
    var s := EncodeBet(b);
    assert s[..32] == b.player;
    assert s[32..48] == LeBytes(b.seed, 16);
    assert s[48..56] == LeBytes(b.slot, 8);
    assert s[56..64] == LeBytes(b.amount, 8);
    PowersOfTwo();
    LeValueOfLeBytes(b.seed, 16);
    LeValueOfLeBytes(b.slot, 8);
    LeValueOfLeBytes(b.amount, 8);
  }

  /** The five ranges cover the whole record: every 66-byte string is the layout of its decoding. */
  lemma EncodeDecodeBet(s: seq<byte>)
    requires |s| == 66
    ensures Encodable(DecodeBet(s)) && EncodeBet(DecodeBet(s)) == s
  {
    var b := DecodeBet(s);
    U128Field(s[32..48]);
    U64Field(s[48..56]);
    U64Field(s[56..64]);
    assert ToUint8(b.roll) == s[64] && ToUint8(b.bump) == s[65];
    LayoutIsEncodeBet(b, s);
  }

  /** Sixteen bytes denote a `u128` whose 16-byte encoding is those bytes. */
  lemma U128Field(t: seq<byte>)
    requires |t| == 16
    ensures LeValue(t) < TWO_POW_128 && LeBytes(LeValue(t), 16) == t
  {
    PowersOfTwo();
    LeValueBound(t);
    LeBytesOfLeValue(t);
  }

  /** Eight bytes denote a `u64` whose 8-byte encoding is those bytes. */
  lemma U64Field(t: seq<byte>)
    requires |t| == 8
    ensures LeValue(t) < TWO_POW_64 && LeBytes(LeValue(t), 8) == t
  {
    PowersOfTwo();
    LeValueBound(t);
    LeBytesOfLeValue(t);
  }
}
