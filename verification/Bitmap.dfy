/** The free bitmap as bytes: eight bits to a byte, lowest first. */
module Bitmap {
  import opened Wrappers

  const BSIZE := 512
  const BPB := BSIZE * 8

  /** 1 shifted left by k. */
  function Mask(k: nat): (m: bv8)
    requires k < 8
  {
    match k
    case 0 => 1
    case 1 => 2
    case 2 => 4
    case 3 => 8
    case 4 => 16
    case 5 => 32
    case 6 => 64
    case 7 => 128
  }

  /** Bit k of a byte, and the byte with it set or cleared. */
  predicate Has(x: bv8, k: nat)
    requires k < 8
  {
    x & Mask(k) != 0
  }

  function Set(x: bv8, k: nat): (y: bv8)
    requires k < 8
  {
    x | Mask(k)
  }

  function Clear(x: bv8, k: nat): (y: bv8)
    requires k < 8
  {
    x & !Mask(k)
  }

  lemma Disjoint(j: nat, k: nat)
    requires j < 8 && k < 8 && j != k
    ensures Mask(k) & Mask(j) == 0
  {
  }

  /** Setting one bit of a byte sets that bit and no other; so does clearing. */
  lemma SetHas(x: bv8, j: nat, k: nat)
    requires j < 8 && k < 8
    ensures Has(Set(x, k), j) <==> j == k || Has(x, j)
  {
    if j == k {
      assert (x | Mask(k)) & Mask(k) == Mask(k);
    } else {
      Disjoint(j, k);
      assert (x | Mask(k)) & Mask(j) == (x & Mask(j)) | (Mask(k) & Mask(j));
    }
  }

  lemma ClearHas(x: bv8, j: nat, k: nat)
    requires j < 8 && k < 8
    ensures Has(Clear(x, k), j) <==> j != k && Has(x, j)
  {
    if j != k {
      Disjoint(j, k);
      assert (x & !Mask(k)) & Mask(j) == x & (!Mask(k) & Mask(j));
      assert Mask(j) == (Mask(k) & Mask(j)) | (!Mask(k) & Mask(j));
    }
  }

  /** A bitmap block as a sequence of bits. */
  function Bits(b: seq<bv8>): (s: seq<bool>)
    ensures |s| == 8 * |b|
  {
    seq(8 * |b|, i requires 0 <= i < 8 * |b| => Has(b[i / 8], i % 8))
  }

  lemma SetIs(b: seq<bv8>, r: seq<bv8>, i: nat)
    requires i < 8 * |b| && r == b[i / 8 := Set(b[i / 8], i % 8)]
    ensures Bits(r) == Bits(b)[i := true]
  {
    hide Has, Set;
    forall j | 0 <= j < 8 * |b| ensures Bits(r)[j] == (j == i || Bits(b)[j]) {
      SetHas(b[i / 8], j % 8, i % 8);
    }
  }

  lemma ClearIs(b: seq<bv8>, r: seq<bv8>, i: nat)
    requires i < 8 * |b| && r == b[i / 8 := Clear(b[i / 8], i % 8)]
    ensures Bits(r) == Bits(b)[i := false]
  {
    hide Has, Clear;
    forall j | 0 <= j < 8 * |b| ensures Bits(r)[j] == (j != i && Bits(b)[j]) {
      ClearHas(b[i / 8], j % 8, i % 8);
    }
  }

  lemma BitAt(b: seq<bv8>, i: nat)
    requires i < 8 * |b|
    ensures Bits(b)[i] == Has(b[i / 8], i % 8)
  {
  }

  lemma NoBits(b: seq<bv8>, i: nat)
    requires i < 8 * |b| && b[i / 8] == 0
    ensures !Bits(b)[i]
  {
  }

  /** The inner loop of balloc on one bitmap block that maps count blocks: the first clear bit is set. */
  method TakeFirst(data: array<bv8>, count: nat) returns (r: Option<nat>)
    requires data.Length == BSIZE
    modifies data
    ensures match r
      case Some(bi) =>
        && bi < BPB && bi < count && !old(Bits(data[..]))[bi] && (forall k :: 0 <= k < bi ==> old(Bits(data[..]))[k])
        && Bits(data[..]) == old(Bits(data[..]))[bi := true]
      case None => data[..] == old(data[..]) && forall k :: 0 <= k < BPB && k < count ==> Bits(data[..])[k]
  {
    hide Has, Set, Bits;
    ghost var before := Bits(data[..]);
    var bi := 0;
    while bi < BPB && bi < count
      invariant 0 <= bi <= BPB && data[..] == old(data[..])
      invariant forall k :: 0 <= k < bi ==> before[k]
    {
      BitAt(data[..], bi);
      if !Has(data[bi / 8], bi % 8) {
        ghost var d := data[..];
        data[bi / 8] := Set(data[bi / 8], bi % 8);
        SetIs(d, data[..], bi);
        return Some(bi);
      }
      bi := bi + 1;
    }
    r := None;
  }

  /** bfree on one bitmap block: false is the panic "freeing free block". */
  method GiveBack(data: array<bv8>, bi: nat) returns (ok: bool)
    requires data.Length == BSIZE && bi < BPB
    modifies data
    ensures ok <==> old(Bits(data[..]))[bi]
    ensures Bits(data[..]) == if ok then old(Bits(data[..]))[bi := false] else old(Bits(data[..]))
  {
    hide Has, Clear, Bits;
    BitAt(data[..], bi);
    if !Has(data[bi / 8], bi % 8) {
      return false;
    }
    ghost var d := data[..];
    data[bi / 8] := Clear(data[bi / 8], bi % 8);
    ClearIs(d, data[..], bi);
    ok := true;
  }

  /** The bitmap block mkfs writes: exactly the first used bits are set. */
  method MarkFirst(used: nat) returns (buf: array<bv8>)
    requires used < BPB
    ensures fresh(buf) && buf.Length == BSIZE && forall k :: 0 <= k < BPB ==> (Bits(buf[..])[k] <==> k < used)
  {
    hide Set, Bits;
    buf := new bv8[BSIZE](_ => 0);
    forall k | 0 <= k < BPB ensures !Bits(buf[..])[k] {
      NoBits(buf[..], k);
    }
    var i := 0;
    while i < used
      invariant 0 <= i <= used && forall k :: 0 <= k < BPB ==> (Bits(buf[..])[k] <==> k < i)
    {
      ghost var d := buf[..];
      buf[i / 8] := Set(buf[i / 8], i % 8);
      SetIs(d, buf[..], i);
      i := i + 1;
    }
  }
}
