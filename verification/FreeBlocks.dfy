/**
 The allocator's free blocks as a sorted sequence: what inserting a freed block with
 coalescing, and carving an allocation from the tail of a free block, do to it.
 Addresses and sizes are in units of one header (8 bytes); address 0 is `base`.
 */
module FreeBlocks {

  datatype Blk = Blk(at: nat, len: nat) {
    function End(): (e: nat) { at + len }

    predicate Has(u: nat) { at <= u < at + len }
  }

  /**
   The first block is base, of size 0; the others are not empty. Each block ends strictly
   before the next begins: they are in address order, disjoint, and no two are adjacent.
   */
  ghost predicate Apart(bs: seq<Blk>) {
    && bs != [] && bs[0] == Blk(0, 0)
    && (forall i :: 1 <= i < |bs| ==> bs[i].len >= 1)
    && Ordered(bs)
  }

  ghost predicate Ordered(bs: seq<Blk>) {
    forall i, j :: 0 <= i < j < |bs| ==> bs[i].at + bs[i].len < bs[j].at
  }

  ghost predicate AllBefore(bs: seq<Blk>, u: nat) {
    forall i :: 0 <= i < |bs| ==> bs[i].at + bs[i].len < u
  }

  ghost predicate AllAfter(bs: seq<Blk>, u: nat) {
    forall i :: 0 <= i < |bs| ==> u < bs[i].at
  }

  lemma OrderedAround(a: seq<Blk>, m: Blk, c: seq<Blk>)
    requires Ordered(a) && Ordered(c) && AllBefore(a, m.at) && AllAfter(c, m.End())
    ensures Ordered(a + [m] + c)
  {
    var r := a + [m] + c;
    forall i, j | 0 <= i < j < |r| ensures r[i].End() < r[j].at {
      if i < |a| && j > |a| {
        assert a[i].End() < m.at && m.End() < c[j - |a| - 1].at;
      }
    }
  }

  lemma CoversAround(a: seq<Blk>, m: Blk, c: seq<Blk>, u: nat)
    ensures Covers(a + [m] + c, u) <==> Covers(a, u) || m.Has(u) || Covers(c, u)
  {
    var r := a + [m] + c;
    if Covers(a, u) {
      var i :| 0 <= i < |a| && a[i].Has(u);
      assert r[i].Has(u);
    }
    if m.Has(u) {
      assert r[|a|].Has(u);
    }
    if Covers(c, u) {
      var i :| 0 <= i < |c| && c[i].Has(u);
      assert r[|a| + 1 + i].Has(u);
    }
  }

  /** Unit u belongs to one of the blocks. */
  ghost predicate Covers(bs: seq<Blk>, u: nat) {
    exists i :: 0 <= i < |bs| && bs[i].Has(u)
  }

  /** Block b lies in the gap after block k. */
  ghost predicate Fits(bs: seq<Blk>, k: nat, b: Blk) {
    && k < |bs| && b.len >= 1 && b.at >= 1
    && bs[k].End() <= b.at
    && (k + 1 < |bs| ==> b.End() <= bs[k + 1].at)
  }

  /** The next block starts where b ends. */
  predicate JoinsNext(bs: seq<Blk>, k: nat, b: Blk)
    requires k < |bs|
  {
    k + 1 < |bs| && b.End() == bs[k + 1].at
  }

  /** Block k ends where b starts. */
  predicate JoinsPrev(bs: seq<Blk>, k: nat, b: Blk)
    requires k < |bs|
  {
    bs[k].End() == b.at
  }

  /** b with the next block if they touch. */
  function WithNext(bs: seq<Blk>, k: nat, b: Blk): (r: Blk)
    requires k < |bs|
    ensures r.at == b.at && r.len >= b.len
  {
    if JoinsNext(bs, k, b) then Blk(b.at, b.len + bs[k + 1].len) else b
  }

  /** The blocks after b, without one that b absorbs. */
  function Rest(bs: seq<Blk>, k: nat, b: Blk): (r: seq<Blk>)
    requires k < |bs|
  {
    if JoinsNext(bs, k, b) then bs[k + 2..] else bs[k + 1..]
  }

  /** The free blocks after freeing b into the gap after block k. */
  function Insert(bs: seq<Blk>, k: nat, b: Blk): (r: seq<Blk>)
    requires Fits(bs, k, b)
  {
    var b1 := WithNext(bs, k, b);
    if JoinsPrev(bs, k, b)
    then bs[..k] + [Blk(bs[k].at, bs[k].len + b1.len)] + Rest(bs, k, b)
    else bs[..k + 1] + [b1] + Rest(bs, k, b)
  }

  ghost predicate NonEmpty(bs: seq<Blk>) {
    forall i :: 0 <= i < |bs| ==> bs[i].len >= 1
  }

  lemma ApartAround(a: seq<Blk>, m: Blk, c: seq<Blk>)
    requires Apart(a) && Ordered(c) && NonEmpty(c) && m.len >= 1
    requires AllBefore(a, m.at) && AllAfter(c, m.End())
    ensures Apart(a + [m] + c)
  {
    OrderedAround(a, m, c);
  }

  lemma ApartTail(bs: seq<Blk>, k: nat, u: nat)
    requires Apart(bs) && 1 <= k <= |bs| && (k < |bs| ==> u < bs[k].at)
    ensures Ordered(bs[k..]) && NonEmpty(bs[k..]) && AllAfter(bs[k..], u)
  {
  }

  lemma HeadApart(bs: seq<Blk>, k: nat)
    requires Apart(bs) && 1 <= k <= |bs|
    ensures Apart(bs[..k])
  {
  }

  lemma HeadBefore(bs: seq<Blk>, k: nat, u: nat)
    requires Ordered(bs) && 1 <= k <= |bs| && bs[k - 1].at + bs[k - 1].len < u
    ensures AllBefore(bs[..k], u)
  {
  }

  lemma ApartHead(bs: seq<Blk>, k: nat, u: nat)
    requires Apart(bs) && 1 <= k <= |bs| && bs[k - 1].End() < u
    ensures Apart(bs[..k]) && AllBefore(bs[..k], u)
  {
    hide Ordered, AllBefore;
    HeadApart(bs, k);
    HeadBefore(bs, k, u);
  }

  lemma Neighbours(bs: seq<Blk>, k: nat)
    requires Apart(bs) && k < |bs|
    ensures k + 1 < |bs| ==> bs[k].End() < bs[k + 1].at
    ensures k > 0 ==> bs[k - 1].End() < bs[k].at
    ensures k == 0 ==> bs[k].len == 0 && bs[k].at == 0
  {
  }

  lemma RestAfter(bs: seq<Blk>, k: nat, b: Blk)
    requires Apart(bs) && Fits(bs, k, b)
    ensures Ordered(Rest(bs, k, b)) && NonEmpty(Rest(bs, k, b))
    ensures AllAfter(Rest(bs, k, b), WithNext(bs, k, b).End())
  {
    hide Apart, Ordered, NonEmpty, AllAfter;
    if JoinsNext(bs, k, b) {
      Neighbours(bs, k + 1);
      ApartTail(bs, k + 2, WithNext(bs, k, b).End());
    } else {
      ApartTail(bs, k + 1, b.End());
    }
  }

  lemma JoinPrevApart(bs: seq<Blk>, k: nat, b: Blk)
    requires Apart(bs) && Fits(bs, k, b) && JoinsPrev(bs, k, b)
    ensures Apart(bs[..k] + [Blk(bs[k].at, bs[k].len + WithNext(bs, k, b).len)] + Rest(bs, k, b))
  {
    hide Apart, Ordered, NonEmpty, AllBefore, AllAfter, Rest, WithNext, JoinsNext;
    RestAfter(bs, k, b);
    Neighbours(bs, k);
    ApartHead(bs, k, bs[k].at);
    var m := Blk(bs[k].at, bs[k].len + WithNext(bs, k, b).len);
    TailAfter(Rest(bs, k, b), WithNext(bs, k, b).End(), m.End());
    ApartAround(bs[..k], m, Rest(bs, k, b));
  }

  lemma NewBlockApart(bs: seq<Blk>, k: nat, b: Blk)
    requires Apart(bs) && Fits(bs, k, b) && !JoinsPrev(bs, k, b)
    ensures Apart(bs[..k + 1] + [WithNext(bs, k, b)] + Rest(bs, k, b))
  {
    hide Apart, Ordered, NonEmpty, AllBefore, AllAfter, Rest, WithNext, JoinsNext;
    RestAfter(bs, k, b);
    ApartHead(bs, k + 1, b.at);
    ApartAround(bs[..k + 1], WithNext(bs, k, b), Rest(bs, k, b));
  }

  /** Coalescing keeps the blocks ordered, disjoint and without adjacent pairs. */
  lemma InsertApart(bs: seq<Blk>, k: nat, b: Blk)
    requires Apart(bs) && Fits(bs, k, b)
    ensures Apart(Insert(bs, k, b))
  {
    hide Apart, Rest, WithNext, JoinsPrev, JoinsNext;
    if JoinsPrev(bs, k, b) {
      JoinPrevApart(bs, k, b);
    } else {
      NewBlockApart(bs, k, b);
    }
  }

  lemma RestCovers(bs: seq<Blk>, k: nat, b: Blk, u: nat)
    requires k < |bs|
    ensures Covers(bs[k + 1..], u) || b.Has(u) <==> Covers(Rest(bs, k, b), u) || WithNext(bs, k, b).Has(u)
  {
    if JoinsNext(bs, k, b) {
      hide Covers;
      assert bs[k + 1..] == [] + [bs[k + 1]] + bs[k + 2..];
      CoversAround([], bs[k + 1], bs[k + 2..], u);
      CoversNone(u);
    }
  }

  /** Freeing a block frees its units and no others. */
  lemma InsertCovers(bs: seq<Blk>, k: nat, b: Blk, u: nat)
    requires Fits(bs, k, b)
    ensures Covers(Insert(bs, k, b), u) <==> Covers(bs, u) || b.Has(u)
  {
    hide Covers, Rest, JoinsNext;
    var b1 := WithNext(bs, k, b);
    RestCovers(bs, k, b, u);
    assert bs == bs[..k] + [bs[k]] + bs[k + 1..];
    CoversAround(bs[..k], bs[k], bs[k + 1..], u);
    if JoinsPrev(bs, k, b) {
      CoversAround(bs[..k], Blk(bs[k].at, bs[k].len + b1.len), Rest(bs, k, b), u);
    } else {
      CoversAround(bs[..k + 1], b1, Rest(bs, k, b), u);
      assert bs[..k + 1] == bs[..k] + [bs[k]] + [];
      CoversAround(bs[..k], bs[k], [], u);
      CoversNone(u);
    }
  }

  lemma CoversNone(u: nat)
    ensures !Covers([], u)
  {
  }

  /** The free blocks after taking n units from block i: all of it, or its tail. */
  function Carve(bs: seq<Blk>, i: nat, n: nat): (r: seq<Blk>)
    requires i < |bs| && 1 <= n <= bs[i].len
  {
    if bs[i].len == n then bs[..i] + bs[i + 1..] else bs[i := Blk(bs[i].at, bs[i].len - n)]
  }

  /** The block that Carve hands out. */
  function Carved(bs: seq<Blk>, i: nat, n: nat): (b: Blk)
    requires i < |bs| && 1 <= n <= bs[i].len
  {
    Blk(bs[i].at + bs[i].len - n, n)
  }

  lemma CarveApart(bs: seq<Blk>, i: nat, n: nat)
    requires Apart(bs) && i < |bs| && 1 <= n <= bs[i].len
    ensures Apart(Carve(bs, i, n))
  {
    hide Apart, Ordered, NonEmpty, AllBefore, AllAfter;
    Neighbours(bs, i);
    ApartTail(bs, i + 1, bs[i].End());
    ApartHead(bs, i, bs[i].at);
    if bs[i].len != n {
      var m := Blk(bs[i].at, bs[i].len - n);
      TailAfter(bs[i + 1..], bs[i].End(), m.End());
      ApartAround(bs[..i], m, bs[i + 1..]);
      assert Carve(bs, i, n) == bs[..i] + [m] + bs[i + 1..];
    } else {
      TailAfter(bs[i + 1..], bs[i].End(), bs[i].at);
      ApartJoin(bs[..i], bs[i + 1..], bs[i].at);
    }
  }

  lemma TailAfter(bs: seq<Blk>, u: nat, v: nat)
    requires AllAfter(bs, u) && v <= u
    ensures AllAfter(bs, v)
  {
  }

  lemma ApartJoin(a: seq<Blk>, c: seq<Blk>, u: nat)
    requires Apart(a) && AllBefore(a, u) && Ordered(c) && NonEmpty(c) && AllAfter(c, u)
    ensures Apart(a + c)
  {
    var r := a + c;
    forall i, j | 0 <= i < j < |r| ensures r[i].at + r[i].len < r[j].at {
      if i < |a| <= j {
        assert a[i].at + a[i].len < u < c[j - |a|].at;
      }
    }
  }

  /** The units handed out leave the free blocks, and no others do. */
  lemma CarveCovers(bs: seq<Blk>, i: nat, n: nat, u: nat)
    requires Apart(bs) && i < |bs| && 1 <= n <= bs[i].len
    ensures Covers(bs, u) <==> Covers(Carve(bs, i, n), u) || Carved(bs, i, n).Has(u)
    ensures !(Covers(Carve(bs, i, n), u) && Carved(bs, i, n).Has(u))
  {
    var m := Blk(bs[i].at, bs[i].len - n);
    assert bs == bs[..i] + [bs[i]] + bs[i + 1..];
    CoversAround(bs[..i], bs[i], bs[i + 1..], u);
    NotElsewhere(bs, i, u);
    if bs[i].len == n {
      CoversSplit(bs[..i], bs[i + 1..], u);
    } else {
      CoversAround(bs[..i], m, bs[i + 1..], u);
      assert Carve(bs, i, n) == bs[..i] + [m] + bs[i + 1..];
    }
  }

  lemma CoversSplit(a: seq<Blk>, c: seq<Blk>, u: nat)
    ensures Covers(a + c, u) <==> Covers(a, u) || Covers(c, u)
  {
    if Covers(a, u) {
      var i :| 0 <= i < |a| && a[i].Has(u);
      assert (a + c)[i].Has(u);
    }
    if Covers(c, u) {
      var i :| 0 <= i < |c| && c[i].Has(u);
      assert (a + c)[|a| + i].Has(u);
    }
  }

  /** A unit of block i is in no other block. */
  lemma NotElsewhere(bs: seq<Blk>, i: nat, u: nat)
    requires Apart(bs) && i < |bs|
    ensures bs[i].Has(u) ==> !Covers(bs[..i], u) && !Covers(bs[i + 1..], u)
  {
  }

  /** The position after which a block not among the free ones belongs. */
  ghost function Gap(bs: seq<Blk>, at: nat): (k: nat)
    requires Apart(bs) && at >= 1
    ensures k < |bs| && bs[k].at <= at && (k + 1 < |bs| ==> at < bs[k + 1].at)
  {
    GapFrom(bs, at, |bs| - 1)
  }

  ghost function GapFrom(bs: seq<Blk>, at: nat, k: nat): (r: nat)
    requires Apart(bs) && at >= 1 && k < |bs| && (k + 1 < |bs| ==> at < bs[k + 1].at)
    ensures r < |bs| && bs[r].at <= at && (r + 1 < |bs| ==> at < bs[r + 1].at)
  {
    if bs[k].at <= at then k else GapFrom(bs, at, k - 1)
  }
}
