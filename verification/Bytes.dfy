/** Bytes and the fixed-width integers that the wire formats are made of. */
module Bytes {

  type byte = x: int | 0 <= x < 256
  type u8 = byte
  type u16 = x: int | 0 <= x < 0x1_0000
  type u32 = x: int | 0 <= x < 0x1_0000_0000
  type u64 = x: int | 0 <= x < 0x1_0000_0000_0000_0000

  function Pow256(n: nat): (p: nat)
    ensures p > 0
  {
    if n == 0 then 1 else 256 * Pow256(n - 1)
  }

  lemma Widths()
    ensures Pow256(1) == 0x100
    ensures Pow256(2) == 0x1_0000
    ensures Pow256(4) == 0x1_0000_0000
    ensures Pow256(8) == 0x1_0000_0000_0000_0000
  {
    assert Pow256(3) == 256 * Pow256(2);
    assert Pow256(5) == 256 * Pow256(4);
    assert Pow256(6) == 256 * Pow256(5);
    assert Pow256(7) == 256 * Pow256(6);
  }

  /** The number a little-endian byte string stands for. */
  function LittleEndian(b: seq<byte>): (v: nat)
    ensures v < Pow256(|b|)
  {
    if b == [] then 0 else b[0] + 256 * LittleEndian(b[1..])
  }

  function PutLittleEndian(v: nat, n: nat): (b: seq<byte>)
    ensures |b| == n
    decreases n, v
  {
    if n == 0 then [] else [v % 256] + PutLittleEndian(v / 256, n - 1)
  }

  /** The number a big-endian byte string stands for. */
  function BigEndian(b: seq<byte>): (v: nat)
    ensures v < Pow256(|b|)
  {
    if b == [] then 0 else 256 * BigEndian(b[..|b| - 1]) + b[|b| - 1]
  }

  function PutBigEndian(v: nat, n: nat): (b: seq<byte>)
    ensures |b| == n
    decreases n, v
  {
    if n == 0 then [] else PutBigEndian(v / 256, n - 1) + [v % 256]
  }

  lemma {:induction false} LittleEndianOfPut(v: nat, n: nat)
    requires v < Pow256(n)
    ensures LittleEndian(PutLittleEndian(v, n)) == v
    decreases n
  {
    if n == 0 {
    } else {
      LittleEndianOfPut(v / 256, n - 1);
      assert PutLittleEndian(v, n)[1..] == PutLittleEndian(v / 256, n - 1);
    }
  }

  lemma {:induction false} PutOfLittleEndian(b: seq<byte>)
    ensures PutLittleEndian(LittleEndian(b), |b|) == b
  {
    if b == [] {
    } else {
      PutOfLittleEndian(b[1..]);
      var high := LittleEndian(b[1..]);
      assert LittleEndian(b) == b[0] as int + 256 * high;
      assert LittleEndian(b) / 256 == high && LittleEndian(b) % 256 == b[0] as int;
      assert b == [b[0]] + b[1..];
    }
  }

  lemma {:induction false} BigEndianOfPut(v: nat, n: nat)
    requires v < Pow256(n)
    ensures BigEndian(PutBigEndian(v, n)) == v
    decreases n
  {
    if n == 0 {
    } else {
      BigEndianOfPut(v / 256, n - 1);
      assert PutBigEndian(v, n)[..n - 1] == PutBigEndian(v / 256, n - 1);
    }
  }

  lemma {:induction false} PutOfBigEndian(b: seq<byte>)
    ensures PutBigEndian(BigEndian(b), |b|) == b
  {
    if b == [] {
    } else {
      var k := |b| - 1;
      PutOfBigEndian(b[..k]);
      var high := BigEndian(b[..k]);
      assert BigEndian(b) == 256 * high + b[k];
      assert BigEndian(b) / 256 == high && BigEndian(b) % 256 == b[k];
      assert PutBigEndian(BigEndian(b), k + 1) == PutBigEndian(high, k) + [b[k]];
      assert b == b[..k] + [b[k]];
    }
  }

  function LE16(b: seq<byte>): u16
    requires |b| == 2
  {
    Widths(); LittleEndian(b)
  }

  function LE32(b: seq<byte>): u32
    requires |b| == 4
  {
    Widths(); LittleEndian(b)
  }

  function LE64(b: seq<byte>): u64
    requires |b| == 8
  {
    Widths(); LittleEndian(b)
  }

  function BE16(b: seq<byte>): u16
    requires |b| == 2
  {
    Widths(); BigEndian(b)
  }

  function BE32(b: seq<byte>): u32
    requires |b| == 4
  {
    Widths(); BigEndian(b)
  }

  lemma Put32(v: u32)
    ensures PutLittleEndian(v, 4) == [v % 256, v / 256 % 256, v / 65536 % 256, v / 16777216 % 256]
  {
    assert PutLittleEndian(v, 4) == [v % 256] + PutLittleEndian(v / 256, 3);
    assert PutLittleEndian(v / 256, 3) == [v / 256 % 256] + PutLittleEndian(v / 256 / 256, 2);
    assert PutLittleEndian(v / 256 / 256, 2) == [v / 256 / 256 % 256] + PutLittleEndian(v / 256 / 256 / 256, 1);
    assert PutLittleEndian(v / 256 / 256 / 256, 1) == [v / 256 / 256 / 256 % 256] + [];
    assert v / 256 / 256 == v / 65536 && v / 256 / 256 / 256 == v / 16777216;
  }

  lemma PutReadLE16(b: seq<byte>, v: u16)
    requires |b| == 2 && LE16(b) == v
    ensures b == PutLittleEndian(v, 2)
  {
    PutOfLittleEndian(b);
  }

  lemma PutReadLE32(b: seq<byte>, v: u32)
    requires |b| == 4 && LE32(b) == v
    ensures b == PutLittleEndian(v, 4)
  {
    PutOfLittleEndian(b);
  }

  lemma PutReadBE16(b: seq<byte>, v: u16)
    requires |b| == 2 && BE16(b) == v
    ensures b == PutBigEndian(v, 2)
  {
    PutOfBigEndian(b);
  }

  lemma PutReadBE32(b: seq<byte>, v: u32)
    requires |b| == 4 && BE32(b) == v
    ensures b == PutBigEndian(v, 4)
  {
    PutOfBigEndian(b);
  }

  lemma ReadPut16(v: u16)
    ensures LE16(PutLittleEndian(v, 2)) == v && BE16(PutBigEndian(v, 2)) == v
  {
    Widths(); LittleEndianOfPut(v, 2); BigEndianOfPut(v, 2);
  }

  lemma ReadPut32(v: u32)
    ensures LE32(PutLittleEndian(v, 4)) == v && BE32(PutBigEndian(v, 4)) == v
  {
    Widths(); LittleEndianOfPut(v, 4); BigEndianOfPut(v, 4);
  }

  lemma ReadPut64(v: u64)
    ensures LE64(PutLittleEndian(v, 8)) == v
  {
    Widths(); LittleEndianOfPut(v, 8);
  }

  /** The numbers that two, four and eight bytes stand for, with the least significant byte first (LE) or last (BE). */
  lemma ValueOf16(b: seq<byte>)
    requires |b| == 2
    ensures LE16(b) == b[0] as int + 0x100 * b[1] as int
    ensures BE16(b) == b[1] as int + 0x100 * b[0] as int
  {
    assert LittleEndian(b[1..]) == b[1] as int + 256 * LittleEndian(b[1..][1..]);
    assert BigEndian(b[..1]) == 256 * BigEndian(b[..1][..0]) + b[0] as int;
  }

  lemma ValueOf32(b: seq<byte>)
    requires |b| == 4
    ensures LE32(b) == LE16(b[..2]) as int + 0x1_0000 * LE16(b[2..]) as int
    ensures BE32(b) == BE16(b[2..]) as int + 0x1_0000 * BE16(b[..2]) as int
  {
    ValueOf16(b[2..]);
    ValueOf16(b[..2]);
    assert b[1..][1..] == b[2..] && b[..3][..2] == b[..2];
    assert LittleEndian(b[1..]) == b[1] as int + 256 * LittleEndian(b[2..]);
    assert BigEndian(b[..3]) == 256 * BigEndian(b[..2]) + b[2] as int;
  }

  lemma ValueOf64(b: seq<byte>)
    requires |b| == 8
    ensures LE64(b) == LE32(b[..4]) as int + 0x1_0000_0000 * LE32(b[4..]) as int
  {
    ValueOf16(b[..2]);
    ValueOf16(b[2..4]);
    ValueOf32(b[..4]);
    assert b[..4][..2] == b[..2] && b[..4][2..] == b[2..4];
    assert b[1..][1..] == b[2..] && b[2..][1..] == b[3..] && b[3..][1..] == b[4..];
    assert LittleEndian(b[3..]) == b[3] as int + 256 * LittleEndian(b[4..]);
    assert LittleEndian(b[2..]) == b[2] as int + 256 * LittleEndian(b[3..]);
    assert LittleEndian(b[1..]) == b[1] as int + 256 * LittleEndian(b[2..]);
  }

  lemma SliceOfSlice(data: seq<byte>, o: nat, n: nat, i: nat, j: nat)
    requires o + n <= |data| && i <= j <= n
    ensures data[o..o + n][i..j] == data[o + i..o + j]
  {
    var a, b := data[o..o + n][i..j], data[o + i..o + j];
    assert forall k :: 0 <= k < j - i ==> a[k] == b[k];
  }
}
