/**
 The user-level allocator: headers in memory linked into one circular list, searched and
 rewritten by pointer-chasing loops. Memory is indexed by header-sized units; address 0 is
 the static header `base`, below everything that sbrk returns.
 */
module Umalloc {
  import opened FreeBlocks
  import opened Wrappers

  /** union header: the next free block and this block's size in units. */
  datatype Header = Header(ptr: nat, size: nat)

  const HEADER_BYTES := 8
  const UINT := 0x1_0000_0000

  /** The units malloc asks for, computed in 32-bit unsigned arithmetic. */
  function Units(nbytes: nat): (n: nat)
    ensures n >= 1
  {
    ((nbytes + HEADER_BYTES - 1) % UINT) / HEADER_BYTES + 1
  }

  /** The units morecore asks sbrk for. */
  function Growth(nunits: nat): (nu: nat) {
    if nunits < 4096 then 4096 else nunits
  }

  /** The byte count sbrk receives: a 32-bit product passed as a signed int. */
  function SbrkBytes(nu: nat): (n: int) {
    var b := (nu * HEADER_BYTES) % UINT;
    if b < UINT / 2 then b else b - UINT
  }

  /** The block is large enough for nbytes exactly when the size computation did not wrap. */
  lemma UnitsSuffice(nbytes: nat)
    requires nbytes < UINT
    ensures (Units(nbytes) - 1) * HEADER_BYTES >= nbytes <==> nbytes <= UINT - HEADER_BYTES
  {
  }

  /** A header and the fewest units that hold nbytes. */
  predicate Fewest(nbytes: nat, n: nat) {
    nbytes <= (n - 1) * HEADER_BYTES < nbytes + HEADER_BYTES
  }

  /** The size is that of a header and the fewest units that hold the bytes; if it wraps, of a header alone. */
  lemma UnitsExact(nbytes: nat)
    requires nbytes < UINT
    ensures nbytes <= UINT - HEADER_BYTES ==> Fewest(nbytes, Units(nbytes))
    ensures nbytes > UINT - HEADER_BYTES ==> Units(nbytes) == 1
  {
  }

  /** sbrk is asked for the bytes of nu units exactly when they fit in a signed int. */
  lemma SbrkRequestExact(nbytes: nat)
    requires nbytes < UINT
    ensures SbrkBytes(Growth(Units(nbytes))) == Growth(Units(nbytes)) * HEADER_BYTES
        <==> nbytes <= UINT / 2 - 2 * HEADER_BYTES || nbytes > UINT - HEADER_BYTES
  {
  }

  /** The address of the free block after block i; the last one points back to base. */
  function Succ(bs: seq<Blk>, i: nat): (a: nat)
    requires i < |bs|
  {
    if i + 1 < |bs| then bs[i + 1].at else 0
  }

  /** The headers in memory form one cycle through the blocks in address order. */
  ghost predicate Linked(mem: map<nat, Header>, bs: seq<Blk>) {
    forall i :: 0 <= i < |bs| ==> bs[i].at in mem && mem[bs[i].at] == Header(Succ(bs, i), bs[i].len)
  }

  /** Unit u belongs to an allocated block. */
  ghost predicate InUse(used: map<nat, nat>, u: nat) {
    exists a :: a in used && Blk(a, used[a]).Has(u)
  }

  /** Allocated blocks have intact headers, lie below limit and are pairwise disjoint. */
  ghost predicate Allocated(mem: map<nat, Header>, used: map<nat, nat>, limit: nat) {
    && (forall a :: a in used ==>
          a >= 1 && used[a] >= 1 && a + used[a] <= limit && a in mem && mem[a].size == used[a])
    && (forall a, b :: a in used && b in used && a < b ==> a + used[a] <= b)
  }

  /** The units obtained from sbrk are exactly the free ones and the allocated ones, and none is both. */
  ghost predicate Partition(arena: set<nat>, bs: seq<Blk>, used: map<nat, nat>) {
    && (forall u: nat :: u in arena <==> Covers(bs, u) || InUse(used, u))
    && (forall u: nat :: !(Covers(bs, u) && InUse(used, u)))
  }

  // ---------------------------------------------------------------- free: finding the place

  /** The test on which free's search loop stops. */
  predicate StopsAt(p: nat, next: nat, bp: nat) {
    (bp > p && bp < next) || (p >= next && (bp > p || bp < next))
  }

  /** The search can stop only at the block after which bp belongs. */
  lemma StopsAtGap(bs: seq<Blk>, i: nat, bp: nat)
    requires Apart(bs) && i < |bs| && bp >= 1
    requires forall j :: 0 <= j < |bs| ==> bs[j].at != bp
    ensures StopsAt(bs[i].at, Succ(bs, i), bp) <==> i == Gap(bs, bp)
  {
    hide Apart;
    var k := Gap(bs, bp);
    AddressOrder(bs, 0, k);
    AddressOrder(bs, 0, i);
    if i < k {
      AddressOrder(bs, i, i + 1);
      AddressOrder(bs, i + 1, k);
    } else if i > k {
      AddressOrder(bs, k + 1, i);
      Neighbours(bs, i);
    } else {
      Neighbours(bs, i);
    }
  }

  lemma AddressOrder(bs: seq<Blk>, i: nat, j: nat)
    requires Apart(bs) && i <= j < |bs|
    ensures bs[i].at <= bs[j].at && (i < j ==> bs[i].at + bs[i].len < bs[j].at)
    ensures bs[0].at == 0
  {
    if i < j {
      assert bs[i].at + bs[i].len < bs[j].at;
    }
  }

  // ---------------------------------------------------------------- free: pointer surgery

  /** The headers that free reads exist. */
  predicate Readable(mem: map<nat, Header>, p: nat, bp: nat) {
    p in mem && bp in mem && p != bp && (bp + mem[bp].size == mem[p].ptr ==> mem[p].ptr in mem)
  }

  /** The memory after free's writes, with bp to go after the free block at p. */
  function Splice(mem: map<nat, Header>, p: nat, bp: nat): (r: map<nat, Header>)
    requires Readable(mem, p, bp)
  {
    var next := mem[p].ptr;
    var h := if bp + mem[bp].size == next
             then Header(mem[next].ptr, mem[bp].size + mem[next].size)
             else Header(next, mem[bp].size);
    mem[bp := h][p := if p + mem[p].size == bp then Header(h.ptr, mem[p].size + h.size)
                      else Header(bp, mem[p].size)]
  }

  /** The blocks of Insert, by position: d blocks are replaced, and b ends up at m. */
  lemma InsertAt(bs: seq<Blk>, k: nat, b: Blk, j: nat)
    requires Fits(bs, k, b)
    ensures var r := Insert(bs, k, b);
            var m := if JoinsPrev(bs, k, b) then k else k + 1;
            var d := if JoinsNext(bs, k, b) then 2 else 1;
            && |r| == m + 1 + |bs| - k - d
            && (j < m ==> j < |bs| && r[j] == bs[j])
            && (m < j < |r| ==> 0 <= j - m - 1 + k + d < |bs| && r[j] == bs[j - m - 1 + k + d])
            && r[m] == (if m == k then Blk(bs[k].at, bs[k].len + WithNext(bs, k, b).len) else WithNext(bs, k, b))
  {
  }

  lemma DistinctAddresses(bs: seq<Blk>, i: nat, j: nat)
    requires Apart(bs) && i < |bs| && j < |bs| && i != j
    ensures bs[i].at != bs[j].at
  {
    if i < j {
      assert bs[i].at + bs[i].len < bs[j].at;
    } else {
      assert bs[j].at + bs[j].len < bs[i].at;
    }
  }

  /** b may be freed into the gap after block k of the free list in memory. */
  ghost predicate CanSplice(mem: map<nat, Header>, bs: seq<Blk>, k: nat, b: Blk) {
    && Apart(bs) && Linked(mem, bs) && Fits(bs, k, b)
    && b.at in mem && mem[b.at].size == b.len
    && (forall i :: 0 <= i < |bs| ==> bs[i].at != b.at)
  }

  /** Position j of the list r is linked in memory t. */
  ghost predicate LinkedAt(t: map<nat, Header>, r: seq<Blk>, j: nat) {
    j < |r| ==> r[j].at in t && t[r[j].at] == Header(Succ(r, j), r[j].len)
  }

  lemma SpliceAwayFrom(mem: map<nat, Header>, bs: seq<Blk>, k: nat, b: Blk, i: nat)
    requires CanSplice(mem, bs, k, b) && i < |bs| && i != k
    ensures var t := Splice(mem, bs[k].at, b.at);
            bs[i].at in t && t[bs[i].at] == Header(Succ(bs, i), bs[i].len)
  {
    hide Apart;
    DistinctAddresses(bs, i, k);
  }

  lemma SpliceMiddle(mem: map<nat, Header>, bs: seq<Blk>, k: nat, b: Blk)
    requires CanSplice(mem, bs, k, b)
    ensures var m := if JoinsPrev(bs, k, b) then k else k + 1;
            LinkedAt(Splice(mem, bs[k].at, b.at), Insert(bs, k, b), m)
  {
    hide Apart, Insert;
    var r := Insert(bs, k, b);
    var m := if JoinsPrev(bs, k, b) then k else k + 1;
    InsertAt(bs, k, b, m);
    if m + 1 < |r| {
      InsertAt(bs, k, b, m + 1);
    }
  }

  lemma SpliceBefore(mem: map<nat, Header>, bs: seq<Blk>, k: nat, b: Blk, j: nat)
    requires CanSplice(mem, bs, k, b) && (j < k || (j == k && !JoinsPrev(bs, k, b)))
    ensures LinkedAt(Splice(mem, bs[k].at, b.at), Insert(bs, k, b), j)
  {
    hide Apart, Insert, WithNext;
    InsertAt(bs, k, b, j);
    InsertAt(bs, k, b, j + 1);
    if j < k {
      SpliceAwayFrom(mem, bs, k, b, j);
    }
  }

  lemma SpliceAfter(mem: map<nat, Header>, bs: seq<Blk>, k: nat, b: Blk, j: nat)
    requires CanSplice(mem, bs, k, b) && j > (if JoinsPrev(bs, k, b) then k else k + 1)
    ensures LinkedAt(Splice(mem, bs[k].at, b.at), Insert(bs, k, b), j)
  {
    hide Apart, Insert, WithNext, Splice;
    var r := Insert(bs, k, b);
    var m := if JoinsPrev(bs, k, b) then k else k + 1;
    var d := if JoinsNext(bs, k, b) then 2 else 1;
    if j < |r| {
      InsertAt(bs, k, b, j);
      if j + 1 < |r| {
        InsertAt(bs, k, b, j + 1);
      }
      SpliceAwayFrom(mem, bs, k, b, j - m - 1 + k + d);
    }
  }

  lemma SpliceAt(mem: map<nat, Header>, bs: seq<Blk>, k: nat, b: Blk, j: nat)
    requires CanSplice(mem, bs, k, b)
    ensures LinkedAt(Splice(mem, bs[k].at, b.at), Insert(bs, k, b), j)
  {
    hide Apart, Insert, Splice, LinkedAt, JoinsPrev;
    var m := if JoinsPrev(bs, k, b) then k else k + 1;
    if j == m {
      SpliceMiddle(mem, bs, k, b);
    } else if j < m {
      SpliceBefore(mem, bs, k, b, j);
    } else {
      SpliceAfter(mem, bs, k, b, j);
    }
  }

  /** After free the headers again form one cycle in address order. */
  lemma SpliceLinked(mem: map<nat, Header>, bs: seq<Blk>, k: nat, b: Blk)
    requires CanSplice(mem, bs, k, b)
    ensures Linked(Splice(mem, bs[k].at, b.at), Insert(bs, k, b))
  {
    hide Insert, Splice, Apart;
    var r := Insert(bs, k, b);
    var t := Splice(mem, bs[k].at, b.at);
    forall j | 0 <= j < |r|
      ensures r[j].at in t && t[r[j].at] == Header(Succ(r, j), r[j].len)
    {
      SpliceAt(mem, bs, k, b, j);
    }
  }

  // ---------------------------------------------------------------- malloc: pointer surgery

  /** The memory after malloc takes n units of the block at p, whose predecessor is prevp. */
  function Cut(mem: map<nat, Header>, prevp: nat, p: nat, n: nat): (r: map<nat, Header>)
    requires prevp in mem && p in mem && mem[p].size >= n
  {
    if mem[p].size == n then mem[prevp := Header(mem[p].ptr, mem[prevp].size)]
    else
      var left := mem[p].size - n;
      var m := mem[p := Header(mem[p].ptr, left)];
      var was := if p + left in m then m[p + left].ptr else 0;
      m[p + left := Header(was, n)]
  }

  lemma CutLinked(mem: map<nat, Header>, bs: seq<Blk>, i: nat, n: nat)
    requires Apart(bs) && Linked(mem, bs) && 1 <= i < |bs| && 1 <= n <= bs[i].len
    ensures Linked(Cut(mem, bs[i - 1].at, bs[i].at, n), Carve(bs, i, n))
  {
    var r := Carve(bs, i, n);
    var t := Cut(mem, bs[i - 1].at, bs[i].at, n);
    forall j | 0 <= j < |r| ensures LinkedAt(t, r, j) {
      if bs[i].len == n {
        CutWhole(mem, bs, i, j);
      } else {
        CutTail(mem, bs, i, n, j);
      }
    }
    hide Apart, Carve, Cut;
    forall j | 0 <= j < |r|
      ensures r[j].at in t && t[r[j].at] == Header(Succ(r, j), r[j].len)
    {
      assert LinkedAt(t, r, j);
    }
  }

  lemma CutWhole(mem: map<nat, Header>, bs: seq<Blk>, i: nat, j: nat)
    requires Apart(bs) && Linked(mem, bs) && 1 <= i < |bs|
    requires bs[i].len >= 1
    ensures LinkedAt(Cut(mem, bs[i - 1].at, bs[i].at, bs[i].len), bs[..i] + bs[i + 1..], j)
  {
    hide Apart;
    var r := bs[..i] + bs[i + 1..];
    if j < |r| {
      var q := if j < i then j else j + 1;
      assert r[j] == bs[q];
      if q != i - 1 {
        DistinctAddresses(bs, q, i - 1);
      }
    }
  }

  lemma CutTail(mem: map<nat, Header>, bs: seq<Blk>, i: nat, n: nat, j: nat)
    requires Apart(bs) && Linked(mem, bs) && 1 <= i < |bs| && 1 <= n < bs[i].len
    ensures LinkedAt(Cut(mem, bs[i - 1].at, bs[i].at, n), bs[i := Blk(bs[i].at, bs[i].len - n)], j)
  {
    hide Apart;
    if j < i {
      AddressOrder(bs, j, i);
    } else if i < j < |bs| {
      AddressOrder(bs, i, j);
    }
  }

  // ---------------------------------------------------------------- units are conserved

  /** Between the gap's ends there is room for an allocated block. */
  lemma FitsGap(arena: set<nat>, bs: seq<Blk>, used: map<nat, nat>, bp: nat)
    requires Apart(bs) && Partition(arena, bs, used)
    requires bp in used && bp >= 1 && used[bp] >= 1
    ensures Fits(bs, Gap(bs, bp), Blk(bp, used[bp]))
    ensures forall i :: 0 <= i < |bs| ==> bs[i].at != bp
  {
    var b := Blk(bp, used[bp]);
    var k := Gap(bs, bp);
    forall u: nat | b.Has(u) ensures !Covers(bs, u) {
      assert InUse(used, u);
    }
    assert b.Has(bp);
    assert !bs[k].Has(bp);
    if k + 1 < |bs| {
      assert bs[k + 1].Has(bs[k + 1].at);
      assert Covers(bs, bs[k + 1].at);
      assert !b.Has(bs[k + 1].at);
    }
    forall i | 0 <= i < |bs| ensures bs[i].at != bp {
      assert i > 0 ==> bs[i].Has(bs[i].at);
    }
  }

  lemma InUseWithout(used: map<nat, nat>, bp: nat, u: nat)
    requires bp in used
    ensures InUse(used, u) <==> InUse(used - {bp}, u) || Blk(bp, used[bp]).Has(u)
  {
    var rest := used - {bp};
    if InUse(rest, u) {
      var a :| a in rest && Blk(a, rest[a]).Has(u);
      assert a in used && Blk(a, used[a]).Has(u);
    }
    if InUse(used, u) {
      var a :| a in used && Blk(a, used[a]).Has(u);
      assert a != bp ==> a in rest && Blk(a, rest[a]).Has(u);
    }
  }

  lemma FreePartition(mem: map<nat, Header>, arena: set<nat>, bs: seq<Blk>, used: map<nat, nat>, limit: nat, bp: nat,
                      k: nat)
    requires Partition(arena, bs, used) && Allocated(mem, used, limit)
    requires bp in used && Fits(bs, k, Blk(bp, used[bp]))
    ensures Partition(arena, Insert(bs, k, Blk(bp, used[bp])), used - {bp})
  {
    hide Insert, Covers;
    var b := Blk(bp, used[bp]);
    var rest := used - {bp};
    forall u: nat
      ensures u in arena <==> Covers(Insert(bs, k, b), u) || InUse(rest, u)
      ensures !(Covers(Insert(bs, k, b), u) && InUse(rest, u))
    {
      InsertCovers(bs, k, b, u);
      InUseWithout(used, bp, u);
      if InUse(rest, u) && b.Has(u) {
        var a :| a in rest && Blk(a, rest[a]).Has(u);
        assert false;
      }
    }
  }

  lemma MallocPartition(arena: set<nat>, bs: seq<Blk>, used: map<nat, nat>, i: nat, n: nat)
    requires Apart(bs) && Partition(arena, bs, used) && i < |bs| && 1 <= n <= bs[i].len
    requires forall a :: a in used ==> used[a] >= 1
    ensures var c := Carved(bs, i, n);
            c.at !in used && Partition(arena, Carve(bs, i, n), used[c.at := n])
  {
    hide Apart, Carve;
    var c := Carved(bs, i, n);
    CarveCovers(bs, i, n, c.at);
    assert c.Has(c.at);
    assert c.at in used ==> Blk(c.at, used[c.at]).Has(c.at);
    var more := used[c.at := n];
    assert more - {c.at} == used;
    hide Carved, Covers;
    forall u: nat
      ensures u in arena <==> Covers(Carve(bs, i, n), u) || InUse(more, u)
      ensures !(Covers(Carve(bs, i, n), u) && InUse(more, u))
    {
      CarveCovers(bs, i, n, u);
      InUseWithout(more, c.at, u);
    }
  }

  // ---------------------------------------------------------------- the allocator

  class Heap {
    var mem: map<nat, Header>  // the headers written so far
    var ready: bool            // whether base has been set up (freep != 0)
    var freep: nat
    ghost var free: seq<Blk>      // the free list in address order, base first
    ghost var used: map<nat, nat> // allocated blocks: header address to size in units
    ghost var arena: set<nat>     // every unit sbrk has returned
    ghost var limit: nat          // the end of the highest unit sbrk has returned

    ghost predicate Valid()
      reads this
    {
      && limit >= 1
      && Allocated(mem, used, limit)
      && (forall u :: u in arena ==> 1 <= u < limit)
      && (if ready
          then Apart(free) && Linked(mem, free) && Listed(free, freep)
          else free == [] && used == map[])
      && Partition(arena, free, used)
    }

    constructor ()
      ensures Valid() && !ready && used == map[] && arena == {}
    {
      mem, ready, freep := map[], false, 0;
      free, used, arena, limit := [], map[], {}, 1;
    }

    /** free's search loop: from freep round the list to the place where bp belongs. */
    method FindPlace(bp: nat) returns (p: nat)
      requires Valid() && bp in used
      ensures Apart(free) && p == free[Gap(free, bp)].at
    {
      ghost var k := Gap(free, bp);
      ghost var i :| 0 <= i < |free| && free[i].at == freep;
      FitsGap(arena, free, used, bp);
      hide Partition, Fits, StopsAt, Allocated;
      p := freep;
      while !(bp > p && bp < mem[p].ptr)
        invariant 0 <= i < |free| && p == free[i].at && p in mem
        decreases if i <= k then k - i else k + |free| - i
      {
        LinkedGet(mem, free, i);
        StopsAtGap(free, i, bp);
        if p >= mem[p].ptr && (bp > p || bp < mem[p].ptr) {
          break;
        }
        p := mem[p].ptr;
        i := if i + 1 < |free| then i + 1 else 0;
      }
      LinkedGet(mem, free, i);
      StopsAtGap(free, i, bp);
    }

    /** free: put an allocated block back, joined with the free blocks it touches. */
    method Free(bp: nat)
      requires Valid() && bp in used
      modifies this`mem, this`freep, this`free, this`used
      ensures Valid() && ready == old(ready)
      ensures used == old(used) - {bp}
      ensures FreedInto(old(free), bp, old(used)[bp], free, freep)
    {
      hide Apart, Linked, Partition, Insert, Splice, Covers, Fits, InUse;
      AfterFree(mem, arena, free, used, limit, bp);
      ghost var b := Blk(bp, used[bp]);
      ghost var k := Gap(free, bp);
      var p := FindPlace(bp);
      assert Readable(mem, p, bp);
      hide Allocated;
      var m := mem;
      if bp + m[bp].size == m[p].ptr {
        m := m[bp := Header(m[m[p].ptr].ptr, m[bp].size + m[m[p].ptr].size)];
      } else {
        m := m[bp := Header(m[p].ptr, m[bp].size)];
      }
      if p + m[p].size == bp {
        m := m[p := Header(m[bp].ptr, m[p].size + m[bp].size)];
      } else {
        m := m[p := Header(bp, m[p].size)];
      }
      IsSplice(mem, p, bp, m);
      mem := m;
      freep := p;
      free := Insert(free, k, b);
      used := used - {bp};
    }

    /** morecore: ask sbrk for at least nunits and free what it grants. */
    method Morecore(nunits: nat, grant: Option<nat>) returns (ok: bool)
      requires Valid() && ready && nunits >= 1
      requires grant.Some? ==> grant.value >= limit
      modifies this`mem, this`freep, this`free, this`used, this`arena, this`limit
      ensures Valid() && ready && used == old(used)
      ensures ok <==> grant.Some?
      ensures !ok ==> free == old(free) && freep == old(freep) && arena == old(arena) && mem == old(mem)
      ensures ok ==> HasRoom(free, nunits)
      ensures ok ==> arena == old(arena) + Region(grant.value, if nunits < 4096 then 4096 else nunits)
      ensures ok ==> EndsOr(free, old(free), grant.value + if nunits < 4096 then 4096 else nunits)
    {
      hide Apart, Linked, Partition, Allocated, Insert, Region;
      var nu := nunits;
      if nu < 4096 {
        nu := 4096;
      }
      if grant.None? {
        return false;
      }
      var hp := grant.value;
      var h := Header(if hp in mem then mem[hp].ptr else 0, nu);
      Granted(mem, arena, free, used, limit, hp, h);
      mem := mem[hp := h];
      used := used[hp := nu];
      arena := arena + Region(hp, nu);
      limit := hp + nu;
      ghost var before := free;
      Free(hp);
      assert used == old(used);
      FreedRoom(before, hp, nu, free, freep);
      FreedLast(old(arena), before, used, old(limit), hp, nu, free, freep);
      ok := true;
    }

    /** The end of malloc: take n units of the block at p, whose predecessor is prevp. */
    method TakeFrom(prevp: nat, p: nat, n: nat, ghost i: nat) returns (a: nat)
      requires Valid() && ready && 1 <= i < |free| && 1 <= n <= free[i].len
      requires prevp == free[i - 1].at && p == free[i].at
      modifies this`mem, this`freep, this`free, this`used
      ensures Valid() && ready
      ensures a == Carved(old(free), i, n).at && a !in old(used) && used == old(used)[a := n]
      ensures free == Carve(old(free), i, n) && freep == prevp
      ensures a + n == old(free)[i].at + old(free)[i].len
    {
      hide Apart, Linked, Partition, Carve, Allocated;
      AfterMalloc(mem, arena, free, used, limit, i, n);
      ghost var t := Cut(mem, prevp, p, n);
      a := p;
      var m := mem;
      if m[a].size == n {
        m := m[prevp := Header(m[a].ptr, m[prevp].size)];
      } else {
        m := m[a := Header(m[a].ptr, m[a].size - n)];
        a := a + m[a].size;
        m := m[a := Header(if a in m then m[a].ptr else 0, n)];
      }
      assert m == t;
      mem := m;
      freep := prevp;
      free := Carve(free, i, n);
      used := used[a := n];
    }

    /** malloc's search: first fit from freep, growing the heap once if nothing fits. */
    method FirstFit(nunits: nat, grant: Option<nat>) returns (ap: Option<nat>)
      requires Valid() && ready && nunits >= 1
      requires grant.Some? ==> grant.value >= limit
      modifies this`mem, this`freep, this`free, this`used, this`arena, this`limit
      ensures Valid() && ready
      ensures ap.None? <==> grant.None? && !HasRoom(old(free), nunits)
      ensures ap.None? ==> used == old(used)
      ensures ap.Some? ==> ap.value !in old(used) && used == old(used)[ap.value := nunits]
      ensures arena == if HasRoom(old(free), nunits) || grant.None? then old(arena)
                       else old(arena) + Region(grant.value, if nunits < 4096 then 4096 else nunits)
      ensures HasRoom(old(free), nunits) ==> ap.Some? && CutFrom(old(free), old(freep), nunits, free, ap.value)
      ensures ap.Some? && !HasRoom(old(free), nunits) ==>
        ap.value + nunits == grant.value + if nunits < 4096 then 4096 else nunits
    {
      hide Apart, Linked, Partition, Allocated, Region, HasRoom, Around, TooSmall, Carve, EndsOr;
      var prevp := freep;
      ghost var f :| 0 <= f < |free| && free[f].at == freep;
      ghost var c := 0;
      StartAround(mem, free, f, nunits);
      var p := mem[prevp].ptr;
      ghost var grown := false;
      while true
        invariant Valid() && ready && used == old(used)
        invariant f < |free| && free[f].at == freep && c < |free| && TooSmall(free, f, c, nunits)
        invariant prevp == free[if c == 0 then f else Around(f, c - 1, |free|)].at
        invariant p == free[Around(f, c, |free|)].at
        invariant !grown ==> free == old(free) && freep == old(freep) && arena == old(arena) && limit == old(limit)
        invariant grown ==> HasRoom(free, nunits) && grant.Some? && !HasRoom(old(free), nunits)
        invariant grown ==> arena == old(arena) + Region(grant.value, if nunits < 4096 then 4096 else nunits)
        invariant grown ==> EndsOr(free, old(free), grant.value + if nunits < 4096 then 4096 else nunits)
        decreases if grown then 0 else 1, |free| - c
      {
        ghost var i := Around(f, c, |free|);
        StepAround(mem, free, f, c, nunits);
        if mem[p].size >= nunits {
          if grown {
            FitsAtEnd(free, old(free), grant.value + (if nunits < 4096 then 4096 else nunits), i, nunits);
          }
          var a := TakeFrom(prevp, p, nunits, i);
          assert !grown ==> FirstThatFits(old(free), old(freep), i, nunits);
          assert !grown ==> CutFrom(old(free), old(freep), nunits, free, a);
          return Some(a);
        }
        if p == freep {
          var ok := Morecore(nunits, grant);
          if !ok {
            return None;
          }
          p := freep;
          grown := true;
          f :| 0 <= f < |free| && free[f].at == freep;
          c := 0;
          StartAround(mem, free, f, nunits);
        } else {
          c := c + 1;
        }
        prevp := p;
        p := mem[p].ptr;
      }
    }

    /** The beginning of malloc: without a free list yet, make one of base alone. */
    method SetUp(ghost n: nat)
      requires Valid() && n >= 1
      modifies this`mem, this`freep, this`free, this`ready
      ensures Valid() && ready && (old(ready) ==> free == old(free) && freep == old(freep) && mem == old(mem))
      ensures HasRoom(free, n) <==> HasRoom(old(free), n)
      ensures HasRoom(old(free), n) ==> free == old(free) && freep == old(freep)
    {
      hide Apart, Linked, Partition, Allocated, HasRoom;
      if !ready {
        StartList(mem, arena, limit);
        NothingListed(n);
        mem := mem[0 := Header(0, 0)];
        freep := 0;
        ready := true;
        free := [Blk(0, 0)];
      }
    }

    /**
     malloc. grant is what sbrk answers if it is asked: nothing, or fresh memory above all
     that it returned before.
     */
    method Malloc(nbytes: nat, grant: Option<nat>) returns (ap: Option<nat>)
      requires Valid() && nbytes < UINT
      requires grant.Some? ==> grant.value >= limit
      requires grant.Some? ==> SbrkBytes(Growth(Units(nbytes))) == Growth(Units(nbytes)) * HEADER_BYTES
      modifies this
      ensures Valid() && ready
      ensures ap.None? <==> grant.None? && !HasRoom(old(free), Units(nbytes))
      ensures ap.None? ==> used == old(used)
      ensures ap.Some? ==>
        && ap.value >= 1 && ap.value - 1 !in old(used)
        && used == old(used)[ap.value - 1 := Units(nbytes)]
      ensures arena == if HasRoom(old(free), Units(nbytes)) || grant.None? then old(arena)
                       else old(arena) + Region(grant.value, if Units(nbytes) < 4096 then 4096 else Units(nbytes))
      ensures HasRoom(old(free), Units(nbytes)) ==>
        ap.Some? && CutFrom(old(free), old(freep), Units(nbytes), free, ap.value - 1)
      ensures ap.Some? && !HasRoom(old(free), Units(nbytes)) ==>
        ap.value - 1 + Units(nbytes) == grant.value + if Units(nbytes) < 4096 then 4096 else Units(nbytes)
      ensures nbytes <= UINT - HEADER_BYTES ==> Fewest(nbytes, Units(nbytes))
    {
      UnitsExact(nbytes);
      var nunits := Units(nbytes);
      hide Apart, Linked, Partition, Allocated, Region, Growth, SbrkBytes, HasRoom, Units, CutFrom, Fewest;
      SetUp(nunits);
      var a := FirstFit(nunits, grant);
      ap := if a.Some? then Some(a.value + 1) else None;
    }
  }

  lemma NothingListed(n: nat)
    requires n >= 1
    ensures !HasRoom([], n)
  {
  }

  lemma StartAround(mem: map<nat, Header>, bs: seq<Blk>, f: nat, n: nat)
    requires Apart(bs) && Linked(mem, bs) && f < |bs|
    ensures bs[f].at in mem && mem[bs[f].at].ptr == bs[Around(f, 0, |bs|)].at
    ensures TooSmall(bs, f, 0, n)
  {
  }

  lemma AroundStep(f: nat, c: nat, n: nat)
    requires f < n && c < n
    ensures Around(f, c, n) == f <==> c == n - 1
    ensures Around(f, c, n) >= 1 ==> Around(f, c, n) - 1 == if c == 0 then f else Around(f, c - 1, n)
    ensures c + 1 < n ==> Around(f, c + 1, n) == if Around(f, c, n) + 1 < n then Around(f, c, n) + 1 else 0
  {
  }

  lemma TooSmallMore(bs: seq<Blk>, f: nat, c: nat, n: nat)
    requires c < |bs| && TooSmall(bs, f, c, n) && bs[Around(f, c, |bs|)].len < n
    ensures TooSmall(bs, f, c + 1, n)
    ensures c == |bs| - 1 ==> !HasRoom(bs, n)
  {
    assert TooSmall(bs, f, c + 1, n);
    hide Around, TooSmall;
    if c == |bs| - 1 {
      AllTooSmall(bs, f, n);
    }
  }

  /** One step of the search: what the block at place c after freep is, and what comes next. */
  lemma StepAround(mem: map<nat, Header>, bs: seq<Blk>, f: nat, c: nat, n: nat)
    requires Apart(bs) && Linked(mem, bs) && f < |bs| && c < |bs| && TooSmall(bs, f, c, n) && n >= 1
    ensures var i := Around(f, c, |bs|);
            && bs[i].at in mem && mem[bs[i].at].size == bs[i].len
            && (bs[i].len >= n ==> i >= 1 && i - 1 == if c == 0 then f else Around(f, c - 1, |bs|))
            && (bs[i].len >= n ==> HasRoom(bs, n))
            && (bs[i].at == bs[f].at <==> c == |bs| - 1)
            && (bs[i].len < n && c == |bs| - 1 ==> !HasRoom(bs, n))
            && (bs[i].len < n && c < |bs| - 1 ==> TooSmall(bs, f, c + 1, n))
            && (c < |bs| - 1 ==> mem[bs[i].at].ptr == bs[Around(f, c + 1, |bs|)].at)
  {
    hide Apart, Linked, Around, TooSmall;
    var i := Around(f, c, |bs|);
    BaseEmpty(bs);
    AroundStep(f, c, |bs|);
    if i != f {
      DistinctAddresses(bs, i, f);
    }
    LinkedGet(mem, bs, i);
    if bs[i].len < n {
      TooSmallMore(bs, f, c, n);
    }
  }

  lemma BaseEmpty(bs: seq<Blk>)
    requires Apart(bs)
    ensures bs[0].len == 0
  {
  }

  /** The list holding only base, before any memory is obtained. */
  lemma StartList(mem: map<nat, Header>, arena: set<nat>, limit: nat)
    requires Allocated(mem, map[], limit) && Partition(arena, [], map[])
    ensures Apart([Blk(0, 0)]) && Linked(mem[0 := Header(0, 0)], [Blk(0, 0)])
    ensures Allocated(mem[0 := Header(0, 0)], map[], limit) && Partition(arena, [Blk(0, 0)], map[])
    ensures Listed([Blk(0, 0)], 0)
    ensures forall n: nat :: n >= 1 ==> !HasRoom([Blk(0, 0)], n)
  {
    assert [Blk(0, 0)][0].at == 0;
  }

  /** The position t + 1 places after position f on a list of n blocks. */
  function Around(f: nat, t: nat, n: nat): (i: nat)
    requires f < n && t < n
    ensures i < n
  {
    if f + 1 + t < n then f + 1 + t else f + 1 + t - n
  }

  /** The first c blocks after position f are too small for n units. */
  ghost predicate TooSmall(bs: seq<Blk>, f: nat, c: nat, n: nat) {
    f < |bs| && c <= |bs| && forall t :: 0 <= t < c ==> bs[Around(f, t, |bs|)].len < n
  }

  /** Block i is large enough for n units, and going round from freep every block before it is not. */
  ghost predicate FirstThatFits(bs: seq<Blk>, freep: nat, i: nat, n: nat) {
    && i < |bs| && 1 <= n <= bs[i].len
    && exists f: nat, c: nat :: c < |bs| && TooSmall(bs, f, c, n) && bs[f].at == freep && i == Around(f, c, |bs|)
  }

  /** The n units at a are the end of the first block of bs, going round from freep, that has so many; r is the rest. */
  ghost predicate CutFrom(bs: seq<Blk>, freep: nat, n: nat, r: seq<Blk>, a: int) {
    exists i: nat :: FirstThatFits(bs, freep, i, n) && r == Carve(bs, i, n) && a + n == bs[i].at + bs[i].len
  }

  lemma AllTooSmall(bs: seq<Blk>, f: nat, n: nat)
    requires TooSmall(bs, f, |bs|, n)
    ensures !HasRoom(bs, n)
  {
    forall i | 0 <= i < |bs| ensures bs[i].len < n {
      var t := if i > f then i - f - 1 else i - f - 1 + |bs|;
      assert Around(f, t, |bs|) == i;
    }
  }

  /** Everything the allocator maintains holds again after malloc takes n units of block i. */
  lemma AfterMalloc(mem: map<nat, Header>, arena: set<nat>, bs: seq<Blk>, used: map<nat, nat>, limit: nat, i: nat,
                    n: nat)
    requires Apart(bs) && Linked(mem, bs) && Allocated(mem, used, limit) && Partition(arena, bs, used)
    requires (forall u :: u in arena ==> 1 <= u < limit) && 1 <= i < |bs| && 1 <= n <= bs[i].len
    ensures bs[i - 1].at in mem && bs[i].at in mem && mem[bs[i].at] == Header(Succ(bs, i), bs[i].len)
    ensures var c := Carved(bs, i, n);
            var t := Cut(mem, bs[i - 1].at, bs[i].at, n);
            && c.at !in used
            && Apart(Carve(bs, i, n)) && Linked(t, Carve(bs, i, n))
            && Partition(arena, Carve(bs, i, n), used[c.at := n])
            && Allocated(t, used[c.at := n], limit)
            && Listed(Carve(bs, i, n), bs[i - 1].at)
  {
    hide Apart, Partition;
    CarveApart(bs, i, n);
    CutLinked(mem, bs, i, n);
    MallocPartition(arena, bs, used, i, n);
    NotFree(arena, bs, used, i - 1);
    NotFree(arena, bs, used, i);
    assert Carve(bs, i, n)[i - 1] == bs[i - 1];
    CutAllocated(mem, arena, bs, used, limit, i, n);
  }

  lemma CutAllocated(mem: map<nat, Header>, arena: set<nat>, bs: seq<Blk>, used: map<nat, nat>, limit: nat, i: nat,
                     n: nat)
    requires Linked(mem, bs) && Allocated(mem, used, limit) && 1 <= i < |bs| && 1 <= n <= bs[i].len
    requires Apart(bs) && Partition(arena, bs, used)
    requires forall u :: u in arena ==> 1 <= u < limit
    requires bs[i - 1].at !in used && bs[i].at !in used && Carved(bs, i, n).at !in used
    ensures Allocated(Cut(mem, bs[i - 1].at, bs[i].at, n), used[Carved(bs, i, n).at := n], limit)
  {
    var c := Carved(bs, i, n);
    var last := c.at + n - 1;
    assert bs[i].Has(last);
    assert Covers(bs, last);
    AddressOrder(bs, 0, i);
    hide Apart;
    forall a | a in used ensures a + used[a] <= c.at || c.at + n <= a {
      CarvedApart(arena, bs, used, i, n, a);
    }
    hide Partition, Covers;
  }

  /** The units handed out lie wholly before or wholly after any allocated block. */
  lemma CarvedApart(arena: set<nat>, bs: seq<Blk>, used: map<nat, nat>, i: nat, n: nat, a: nat)
    requires Partition(arena, bs, used) && i < |bs| && 1 <= n <= bs[i].len
    requires a in used && used[a] >= 1
    ensures var c := Carved(bs, i, n); a + used[a] <= c.at || c.at + n <= a
  {
    var c := Carved(bs, i, n);
    if c.at <= a {
      assert Blk(a, used[a]).Has(a);
      assert InUse(used, a);
      assert bs[i].Has(a) ==> Covers(bs, a);
    } else {
      assert bs[i].Has(c.at);
      assert Covers(bs, c.at);
      assert Blk(a, used[a]).Has(c.at) ==> InUse(used, c.at);
    }
  }

  /** Some free block has n units. */
  ghost predicate HasRoom(bs: seq<Blk>, n: nat) {
    exists i :: 0 <= i < |bs| && bs[i].len >= n
  }

  /** The units of a block. */
  ghost function Region(at: nat, len: nat): (r: set<nat>) {
    set u: nat | at <= u < at + len && Blk(at, len).Has(u)
  }

  lemma FreedRoom(bs: seq<Blk>, bp: nat, size: nat, r: seq<Blk>, freep: nat)
    requires FreedInto(bs, bp, size, r, freep)
    ensures forall n: nat :: n <= size ==> HasRoom(r, n)
  {
    hide Insert;
    var b := Blk(bp, size);
    var k := Gap(bs, bp);
    var m := if JoinsPrev(bs, k, b) then k else k + 1;
    InsertAt(bs, k, b, m);
    assert r[m].len >= size;
  }

  lemma CarveIs(bs: seq<Blk>, i: nat, n: nat)
    requires i < |bs| && 1 <= n <= bs[i].len
    ensures Carved(bs, i, n).at + n == bs[i].at + bs[i].len
    ensures Carve(bs, i, n) == if bs[i].len == n then bs[..i] + bs[i + 1..]
                               else bs[i := Blk(bs[i].at, bs[i].len - n)]
  {
  }

  /** Every block of r ends at e, or is one of bs. */
  ghost predicate EndsOr(r: seq<Blk>, bs: seq<Blk>, e: nat) {
    forall i :: 0 <= i < |r| ==> r[i].at + r[i].len == e || r[i] in bs
  }

  lemma FitsAtEnd(r: seq<Blk>, bs: seq<Blk>, e: nat, i: nat, n: nat)
    requires EndsOr(r, bs, e) && !HasRoom(bs, n) && i < |r| && r[i].len >= n
    ensures r[i].at + r[i].len == e
  {
  }

  /** Fresh memory above everything else becomes, or extends, the last free block. */
  lemma FreedLast(arena: set<nat>, bs: seq<Blk>, used: map<nat, nat>, limit: nat, hp: nat, nu: nat, r: seq<Blk>,
                  freep: nat)
    requires Partition(arena, bs, used) && (forall u :: u in arena ==> 1 <= u < limit) && hp >= limit >= 1
    requires FreedInto(bs, hp, nu, r, freep)
    ensures EndsOr(r, bs, hp + nu)
  {
    hide Insert, Partition, GapFrom;
    var k, b := Gap(bs, hp), Blk(hp, nu);
    BelowLimit(arena, bs, used, limit, k + 1);
    var m := if JoinsPrev(bs, k, b) then k else k + 1;
    forall j | 0 <= j < |r| ensures r[j].at + r[j].len == hp + nu || r[j] in bs {
      InsertAt(bs, k, b, j);
    }
  }

  lemma BelowLimit(arena: set<nat>, bs: seq<Blk>, used: map<nat, nat>, limit: nat, k: nat)
    requires Apart(bs) && Partition(arena, bs, used) && (forall u :: u in arena ==> 1 <= u < limit) && k >= 1
    ensures k < |bs| ==> bs[k].at < limit
  {
    hide InUse;
    if k < |bs| {
      assert bs[k].Has(bs[k].at);
      assert Covers(bs, bs[k].at);
    }
  }

  /** Fresh memory above everything else can be entered as one more allocated block. */
  lemma Granted(mem: map<nat, Header>, arena: set<nat>, bs: seq<Blk>, used: map<nat, nat>, limit: nat, hp: nat,
                h: Header)
    requires Apart(bs) && Linked(mem, bs) && Allocated(mem, used, limit) && Partition(arena, bs, used)
    requires (forall u :: u in arena ==> 1 <= u < limit) && limit >= 1 && hp >= limit && h.size >= 1
    ensures hp !in used
    ensures Linked(mem[hp := h], bs) && Allocated(mem[hp := h], used[hp := h.size], hp + h.size)
    ensures Partition(arena + Region(hp, h.size), bs, used[hp := h.size])
    ensures forall u :: u in arena + Region(hp, h.size) ==> 1 <= u < hp + h.size
  {
    var nu := h.size;
    forall i | 0 <= i < |bs| ensures bs[i].at < limit {
      if i > 0 {
        assert bs[i].Has(bs[i].at);
        assert Covers(bs, bs[i].at);
      }
    }
    var more := used[hp := nu];
    assert more - {hp} == used;
    forall u: nat
      ensures u in arena + Region(hp, nu) <==> Covers(bs, u) || InUse(more, u)
      ensures !(Covers(bs, u) && InUse(more, u))
    {
      InUseWithout(more, hp, u);
    }
  }

  /** The free list after freeing size units at bp, and where freep is left. */
  ghost predicate FreedInto(bs: seq<Blk>, bp: nat, size: nat, r: seq<Blk>, freep: nat) {
    && Apart(bs) && bp >= 1
    && var k := Gap(bs, bp);
       Fits(bs, k, Blk(bp, size)) && r == Insert(bs, k, Blk(bp, size)) && freep == bs[k].at
  }

  ghost predicate Listed(bs: seq<Blk>, p: nat) {
    exists i :: 0 <= i < |bs| && bs[i].at == p
  }

  lemma CanRead(mem: map<nat, Header>, bs: seq<Blk>, k: nat, b: Blk)
    requires CanSplice(mem, bs, k, b)
    ensures Readable(mem, bs[k].at, b.at)
  {
  }

  /** The two conditional writes of free, made one after the other, are Splice. */
  lemma IsSplice(mem: map<nat, Header>, p: nat, bp: nat, r: map<nat, Header>)
    requires Readable(mem, p, bp)
    requires var m := if bp + mem[bp].size == mem[p].ptr
                      then mem[bp := Header(mem[mem[p].ptr].ptr, mem[bp].size + mem[mem[p].ptr].size)]
                      else mem[bp := Header(mem[p].ptr, mem[bp].size)];
             r == if p + m[p].size == bp
                  then m[p := Header(m[bp].ptr, m[p].size + m[bp].size)]
                  else m[p := Header(bp, m[p].size)]
    ensures r == Splice(mem, p, bp)
  {
  }

  lemma LinkedGet(mem: map<nat, Header>, bs: seq<Blk>, i: nat)
    requires Apart(bs) && Linked(mem, bs) && i < |bs|
    ensures bs[0].at == 0
    ensures bs[i].at in mem && mem[bs[i].at] == Header(Succ(bs, i), bs[i].len)
  {
  }

  /** Everything the allocator maintains holds again after free. */
  lemma AfterFree(mem: map<nat, Header>, arena: set<nat>, bs: seq<Blk>, used: map<nat, nat>, limit: nat, bp: nat)
    requires Apart(bs) && Linked(mem, bs) && Allocated(mem, used, limit) && Partition(arena, bs, used)
    requires bp in used
    ensures var b := Blk(bp, used[bp]);
            var k := Gap(bs, bp);
            && Fits(bs, k, b) && Readable(mem, bs[k].at, bp)
            && Apart(Insert(bs, k, b)) && Linked(Splice(mem, bs[k].at, bp), Insert(bs, k, b))
            && Partition(arena, Insert(bs, k, b), used - {bp})
            && Allocated(Splice(mem, bs[k].at, bp), used - {bp}, limit)
            && Listed(Insert(bs, k, b), bs[k].at)
  {
    hide Apart, Linked, Partition, Insert;
    var b := Blk(bp, used[bp]);
    var k := Gap(bs, bp);
    FitsGap(arena, bs, used, bp);
    assert CanSplice(mem, bs, k, b);
    CanRead(mem, bs, k, b);
    InsertApart(bs, k, b);
    SpliceLinked(mem, bs, k, b);
    FreePartition(mem, arena, bs, used, limit, bp, k);
    InsertAt(bs, k, b, k);
    NotFree(arena, bs, used, k);
  }

  /** No allocated block starts at the address of a free one. */
  lemma NotFree(arena: set<nat>, bs: seq<Blk>, used: map<nat, nat>, k: nat)
    requires Apart(bs) && Partition(arena, bs, used) && k < |bs|
    requires forall a :: a in used ==> a >= 1 && used[a] >= 1
    ensures bs[k].at !in used
  {
    var at := bs[k].at;
    assert at in used ==> Blk(at, used[at]).Has(at);
    assert at in used ==> InUse(used, at);
    assert k > 0 ==> bs[k].Has(at);
    assert k > 0 ==> Covers(bs, at);
  }

  // ---------------------------------------------------------------- counting units

  ghost function FreeUnits(bs: seq<Blk>): (n: nat) {
    if bs == [] then 0 else FreeUnits(bs[..|bs| - 1]) + bs[|bs| - 1].len
  }

  ghost function UsedUnits(used: map<nat, nat>): (n: nat) {
    if used == map[] then 0
    else
      var a :| a in used;
      used[a] + UsedUnits(used - {a})
  }

  lemma {:induction false} RegionSize(at: nat, len: nat)
    ensures |Region(at, len)| == len
  {
    if len > 0 {
      RegionSize(at, len - 1);
      assert Region(at, len) == Region(at, len - 1) + {at + len - 1};
    } else {
      assert Region(at, len) == {};
    }
  }

  /** A set of units covered by ordered blocks is as large as the blocks together. */
  lemma {:induction false} FreeCount(bs: seq<Blk>, us: set<nat>)
    requires Ordered(bs) && forall u: nat :: u in us <==> Covers(bs, u)
    ensures |us| == FreeUnits(bs)
  {
    if bs == [] {
      assert us == {};
    } else {
      var last := bs[|bs| - 1];
      var rest := bs[..|bs| - 1];
      var region := Region(last.at, last.len);
      assert bs == rest + [last] + [];
      forall u: nat ensures u in us - region <==> Covers(rest, u) {
        CoversAround(rest, last, [], u);
        CoversNone(u);
        LastApart(bs, u);
      }
      FreeCount(rest, us - region);
      RegionSize(last.at, last.len);
      assert region <= us by {
        forall u: nat | u in region ensures u in us {
          CoversAround(rest, last, [], u);
        }
      }
    }
  }

  lemma LastApart(bs: seq<Blk>, u: nat)
    requires bs != [] && Ordered(bs)
    ensures !(Covers(bs[..|bs| - 1], u) && bs[|bs| - 1].Has(u))
  {
  }

  lemma {:induction false} UsedCount(mem: map<nat, Header>, used: map<nat, nat>, limit: nat, us: set<nat>)
    requires Allocated(mem, used, limit) && forall u: nat :: u in us <==> InUse(used, u)
    ensures |us| == UsedUnits(used)
    decreases |used|
  {
    hide InUse, Allocated, Region;
    if used == map[] {
      NoneInUse(us);
    } else {
      var a :| a in used && UsedUnits(used) == used[a] + UsedUnits(used - {a});
      var rest := used - {a};
      UsedRegion(mem, used, limit, a, us);
      RestAllocated(mem, used, limit, a);
      UsedCount(mem, rest, limit, us - Region(a, used[a]));
    }
  }

  lemma NoneInUse(us: set<nat>)
    requires forall u: nat :: u in us <==> InUse(map[], u)
    ensures us == {}
  {
  }

  lemma UsedRegion(mem: map<nat, Header>, used: map<nat, nat>, limit: nat, a: nat, us: set<nat>)
    requires Allocated(mem, used, limit) && a in used && forall u: nat :: u in us <==> InUse(used, u)
    ensures |us| == |us - Region(a, used[a])| + used[a]
    ensures forall u: nat :: u in us - Region(a, used[a]) <==> InUse(used - {a}, u)
  {
    hide InUse, Allocated, Region;
    var region := Region(a, used[a]);
    forall u: nat
      ensures u in us - region <==> InUse(used - {a}, u)
      ensures u in region ==> u in us
    {
      UsedSplit(mem, used, limit, a, u);
      InRegion(a, used[a], u);
    }
    RegionSize(a, used[a]);
    assert us == (us - region) + region;
  }

  lemma InRegion(at: nat, len: nat, u: nat)
    ensures u in Region(at, len) <==> Blk(at, len).Has(u)
  {
  }

  lemma RestAllocated(mem: map<nat, Header>, used: map<nat, nat>, limit: nat, a: nat)
    requires Allocated(mem, used, limit)
    ensures Allocated(mem, used - {a}, limit)
  {
  }

  lemma UsedSplit(mem: map<nat, Header>, used: map<nat, nat>, limit: nat, a: nat, u: nat)
    requires Allocated(mem, used, limit) && a in used
    ensures InUse(used, u) <==> InUse(used - {a}, u) || Blk(a, used[a]).Has(u)
    ensures !(InUse(used - {a}, u) && Blk(a, used[a]).Has(u))
  {
    InUseWithout(used, a, u);
    var rest := used - {a};
    if InUse(rest, u) {
      var c :| c in rest && Blk(c, rest[c]).Has(u);
    }
  }

  /** Free units plus allocated units are the units obtained from sbrk. */
  lemma UnitsConserved(mem: map<nat, Header>, arena: set<nat>, bs: seq<Blk>, used: map<nat, nat>, limit: nat)
    requires Apart(bs) && Ordered(bs) && Allocated(mem, used, limit) && Partition(arena, bs, used)
    ensures |arena| == FreeUnits(bs) + UsedUnits(used)
  {
    hide Covers, InUse, Allocated, Apart, Ordered;
    var free := set u | u in arena && Covers(bs, u);
    var taken := set u | u in arena && InUse(used, u);
    FreeCount(bs, free);
    UsedCount(mem, used, limit, taken);
    assert arena == free + taken && free !! taken;
  }
}
