/**
 The free bitmap as it lies on the disk: blocks of bytes, one after another. Allocating and
 freeing on them do to the bits of the volume what the file system's balloc and bfree do, and
 the block mkfs writes is the bitmap of the image it builds.
 */
module BitmapBlocks {
  import opened Volume
  import opened Fs
  import opened Wrappers
  import Bitmap
  import Mkfs

  type Bytes = b: seq<bv8> | |b| == BSIZE witness seq(BSIZE, _ => 0)

  /** Every block of the volume has its bit in some bitmap block. */
  ghost predicate Covered(sb: Super, disk: map<nat, Bytes>) {
    forall b: nat :: b < sb.size ==> BBlock(sb, b) in disk
  }

  predicate Bit(sb: Super, disk: map<nat, Bytes>, b: nat)
    requires BBlock(sb, b) in disk
  {
    Bitmap.Bits(disk[BBlock(sb, b)])[b % BPB]
  }

  /** The bitmap of the volume. */
  function AllBits(sb: Super, disk: map<nat, Bytes>): (s: seq<bool>)
    requires Covered(sb, disk)
    ensures |s| == sb.size
  {
    seq(sb.size, b requires 0 <= b < sb.size => Bit(sb, disk, b))
  }

  /** The bitmap block of block b + bi, and the place of its bit there. */
  lemma PlaceOf(sb: Super, b: nat, bi: nat)
    requires b % BPB == 0 && bi < BPB
    ensures BBlock(sb, b + bi) == BBlock(sb, b) && (b + bi) % BPB == bi
  {
  }

  lemma OneBit(sb: Super, disk: map<nat, Bytes>, data: Bytes, b: nat, x: bool, j: nat)
    requires b < sb.size && j < sb.size && BBlock(sb, b) in disk && BBlock(sb, j) in disk
    requires Bitmap.Bits(data) == Bitmap.Bits(disk[BBlock(sb, b)])[b % BPB := x]
    ensures Bit(sb, disk[BBlock(sb, b) := data], j) == if j == b then x else Bit(sb, disk, j)
  {
  }

  /** Changing one bit of a bitmap block changes that bit of the volume's bitmap. */
  lemma BitPut(sb: Super, disk: map<nat, Bytes>, data: Bytes, b: nat, x: bool)
    requires Covered(sb, disk) && b < sb.size
    requires Bitmap.Bits(data) == Bitmap.Bits(disk[BBlock(sb, b)])[b % BPB := x]
    ensures AllBits(sb, disk[BBlock(sb, b) := data]) == AllBits(sb, disk)[b := x]
  {
    hide Bit, BBlock;
    forall j: nat | j < sb.size
      ensures Bit(sb, disk[BBlock(sb, b) := data], j) == if j == b then x else Bit(sb, disk, j)
    {
      OneBit(sb, disk, data, b, x, j);
    }
  }

  lemma BitIs(sb: Super, disk: map<nat, Bytes>, b: nat)
    requires Covered(sb, disk) && b < sb.size
    ensures AllBits(sb, disk)[b] == Bitmap.Bits(disk[BBlock(sb, b)])[b % BPB]
  {
  }

  /** The bits of one bitmap block among those of the volume. */
  lemma BlockBits(sb: Super, disk: map<nat, Bytes>, b: nat)
    requires Covered(sb, disk) && b % BPB == 0 && b < sb.size
    ensures forall k :: b <= k < b + BPB && k < sb.size ==>
      AllBits(sb, disk)[k] == Bitmap.Bits(disk[BBlock(sb, b)])[k - b]
  {
    hide AllBits, BBlock, Bitmap.Bits;
    forall k | b <= k < b + BPB && k < sb.size
      ensures AllBits(sb, disk)[k] == Bitmap.Bits(disk[BBlock(sb, b)])[k - b]
    {
      PlaceOf(sb, b, k - b);
      BitIs(sb, disk, k);
    }
  }

  class Area {
    const sb: Super
    var disk: map<nat, Bytes>

    /** balloc, up to clearing the block. */
    method Balloc() returns (r: Option<nat>)
      requires Covered(sb, disk)
      modifies this`disk
      ensures Covered(sb, disk) && FirstTaken(old(AllBits(sb, disk)), AllBits(sb, disk), r)
      ensures r.None? ==> disk == old(disk)
      ensures r.Some? ==>
        forall n :: n in old(disk) && n != BBlock(sb, r.value) ==> n in disk && disk[n] == old(disk)[n]
    {
      hide AllBits, BBlock, Bitmap.Bits;
      var b := 0;
      while b < sb.size
        invariant b % BPB == 0 && disk == old(disk)
        invariant forall k :: 0 <= k < b && k < sb.size ==> AllBits(sb, disk)[k]
      {
        var data := disk[BBlock(sb, b)];
        var bp := new bv8[BSIZE](i requires 0 <= i < BSIZE => data[i]);
        assert bp[..] == data;
        BlockBits(sb, disk, b);
        var bi := Bitmap.TakeFirst(bp, sb.size - b);
        if bi.Some? {
          PlaceOf(sb, b, bi.value);
          BitPut(sb, disk, bp[..], b + bi.value, true);
          disk := disk[BBlock(sb, b) := bp[..]];
          return Some(b + bi.value);
        }
        b := b + BPB;
      }
      r := None;
    }

    /** bfree; false is the panic "freeing free block". */
    method Bfree(b: nat) returns (ok: bool)
      requires Covered(sb, disk) && b < sb.size
      modifies this`disk
      ensures Covered(sb, disk) && GivenBack(old(AllBits(sb, disk)), AllBits(sb, disk), b, ok)
      ensures forall n :: n in old(disk) && n != BBlock(sb, b) ==> n in disk && disk[n] == old(disk)[n]
    {
      hide Bit, BBlock, Bitmap.Bits;
      var data := disk[BBlock(sb, b)];
      var bp := new bv8[BSIZE](i requires 0 <= i < BSIZE => data[i]);
      assert bp[..] == data;
      BitIs(sb, disk, b);
      ok := Bitmap.GiveBack(bp, b % BPB);
      if ok {
        BitPut(sb, disk, bp[..], b, false);
        disk := disk[BBlock(sb, b) := bp[..]];
      }
    }
  }

  /** The bitmap block that mkfs writes is the bitmap of the volume it builds. */
  method MkfsBalloc(used: nat) returns (disk: map<nat, Bytes>)
    requires used < BPB
    ensures Covered(Mkfs.SB, disk) && AllBits(Mkfs.SB, disk) == Mkfs.FirstMarked(used)
  {
    var buf := Bitmap.MarkFirst(used);
    disk := map[Mkfs.SB.bmapstart := buf[..]];
    forall b: nat | b < Mkfs.FSSIZE ensures BBlock(Mkfs.SB, b) in disk && Bit(Mkfs.SB, disk, b) == (b < used) {
      assert BBlock(Mkfs.SB, b) == Mkfs.SB.bmapstart && b % BPB == b;
    }
  }
}
