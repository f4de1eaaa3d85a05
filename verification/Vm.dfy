/** Page tables: building, growing, shrinking, copying and freeing address spaces. */
module Vm {
  import opened Pages
  import opened Wrappers

  type Data = seq<int>  // what a page holds

  const NVPN := NPDE * NPTE

  /** The number of pages that sz bytes reach into. */
  function Up(sz: nat): (n: nat)
    ensures forall v: nat :: v * PGSIZE < sz <==> v < n
  {
    assert forall v: nat :: v * PGSIZE < sz <==> v < (sz + PGSIZE - 1) / PGSIZE;
    (sz + PGSIZE - 1) / PGSIZE
  }

  /** The entries without those of the virtual pages from lo up to hi. */
  function Without(ptes: map<nat, Pte>, lo: nat, hi: nat): (r: map<nat, Pte>) {
    map v | v in ptes && !(lo <= v < hi) :: ptes[v]
  }

  /** The pages in s hold what they held. */
  ghost predicate SameData(m: map<nat, Data>, n: map<nat, Data>, s: set<nat>) {
    s <= m.Keys && s <= n.Keys && forall x :: x in s ==> n[x] == m[x]
  }

  class PageDir {
    const pgdir: nat
    var tabs: map<nat, nat>
    var ptes: map<nat, Pte>

    ghost function Sp(): (sp: Space)
      reads this
    {
      Space(pgdir, tabs, ptes)
    }

    constructor (page: nat)
      ensures Sp() == Space(page, map[], map[])
    {
      pgdir := page;
      tabs := map[];
      ptes := map[];
    }
  }

  class Kernel {
    var free: seq<nat>
    var mem: map<nat, Data>

    method Kalloc() returns (r: Option<nat>)
      modifies this`free
      ensures r.None? <==> old(free) == []
      ensures r.None? ==> free == []
      ensures r.Some? ==> r.value == old(free)[0] && free == old(free)[1..]
    {
      if free == [] {
        return None;
      }
      r := Some(free[0]);
      free := free[1..];
    }

    method Kfree(x: nat)
      modifies this`free, this`mem
      ensures free == [x] + old(free) && SameData(old(mem), mem, old(mem).Keys - {x}) && mem.Keys == old(mem).Keys + {x}
    {
      mem := mem[x := [1]];
      free := [x] + free;
    }

    /** walkpgdir: is there a table for virtual page v, making one if asked? */
    method Walkpgdir(pd: PageDir, v: nat, alloc: bool, ghost rest: set<nat>, ghost all: set<nat>) returns (ok: bool)
      requires Conserved(free, pd.Sp(), rest, all) && v < NVPN
      modifies this`free, pd`tabs
      ensures Conserved(free, pd.Sp(), rest, all)
      ensures ok ==> v / NPTE in pd.tabs
      ensures !alloc ==> pd.tabs == old(pd.tabs) && free == old(free) && (ok <==> v / NPTE in pd.tabs)
      ensures alloc && !ok ==> free == [] && old(free) == [] && pd.tabs == old(pd.tabs)
      ensures alloc ==> (ok <==> v / NPTE in old(pd.tabs) || old(free) != [])
      ensures v / NPTE in old(pd.tabs) ==> pd.tabs == old(pd.tabs) && free == old(free)
      ensures alloc && ok && v / NPTE !in old(pd.tabs) ==>
        old(free) != [] && free == old(free)[1..] && pd.tabs == old(pd.tabs)[v / NPTE := old(free)[0]]
      ensures |old(free)| <= |free| + 1 && Set(free) <= Set(old(free))
    {
      hide Conserved, Distinct, Owned, NoDup, Set;
      PopSubset(free);
      if v / NPTE in pd.tabs {
        return true;
      }
      if !alloc {
        return false;
      }
      ghost var f := free;
      var pgtab := Kalloc();
      if pgtab.None? {
        return false;
      }
      Popped(f, pd.Sp(), rest, all);
      TabAdded(free, pd.Sp(), rest + {pgtab.value}, all, v / NPTE, pgtab.value);
      assert rest + {pgtab.value} - {pgtab.value} == rest;
      pd.tabs := pd.tabs[v / NPTE := pgtab.value];
      ok := true;
    }

    /** One entry of mappages. A user page comes from the caller's hand, which holds rest. */
    method MapPage(pd: PageDir, v: nat, p: Pte, ghost rest: set<nat>, ghost all: set<nat>) returns (ok: bool)
      requires Conserved(free, pd.Sp(), rest, all) && v < NVPN && v !in pd.ptes && (v < KERNPN ==> p.page in rest)
      modifies this`free, pd`tabs, pd`ptes
      ensures ok ==> Conserved(free, pd.Sp(), if v < KERNPN then rest - {p.page} else rest, all)
                     && pd.ptes == old(pd.ptes)[v := p]
      ensures !ok ==> Conserved(free, pd.Sp(), rest, all) && pd.ptes == old(pd.ptes) && free == [] && old(free) == []
      ensures ok <==> v / NPTE in old(pd.tabs) || old(free) != []
      ensures ok ==> pd.tabs.Keys == old(pd.tabs).Keys + {v / NPTE}
      ensures ok ==> |free| == |old(free)| - if v / NPTE in old(pd.tabs) then 0 else 1
      ensures |old(free)| <= |free| + 1 && Set(free) <= Set(old(free))
    {
      hide Conserved, Distinct, Owned, NoDup, Set;
      ok := Walkpgdir(pd, v, true, rest, all);
      if !ok {
        return;
      }
      PteAdded(free, pd.Sp(), rest, all, v, p);
      pd.ptes := pd.ptes[v := p];
    }

    /**
     deallocuvm: exactly the pages from newsz up to oldsz are unmapped and freed; tables stay.
     Stepping over missing tables misses no page.
     */
    method Deallocuvm(pd: PageDir, oldsz: nat, newsz: nat, ghost rest: set<nat>, ghost all: set<nat>) returns (sz: nat)
      requires Conserved(free, pd.Sp(), rest, all) && oldsz <= KERNBASE && all <= mem.Keys
      modifies this`free, this`mem, pd`ptes
      ensures Conserved(free, pd.Sp(), rest, all) && all <= mem.Keys
      ensures SameData(old(mem), mem, rest + UserPages(pd.ptes))
      ensures sz == if newsz >= oldsz then oldsz else newsz
      ensures pd.ptes == if newsz >= oldsz then old(pd.ptes) else Without(old(pd.ptes), Up(newsz), Up(oldsz))
      ensures forall v: nat :: v in pd.ptes <==> v in old(pd.ptes) && !(newsz <= v * PGSIZE < oldsz)
      ensures forall v: nat :: v in pd.ptes ==> pd.ptes[v] == old(pd.ptes)[v]
    {
      hide Conserved, Distinct, Owned, NoDup, Set, UserPages;
      RestIn(free, pd.Sp(), rest, all);
      if newsz >= oldsz {
        return oldsz;
      }
      ghost var p0, lo, hi := pd.ptes, Up(newsz), Up(oldsz);
      UpBounds(newsz, oldsz);
      assert Without(p0, lo, lo) == p0;
      var v := Up(newsz);
      while v * PGSIZE < oldsz
        invariant lo <= v <= KERNPN && lo <= hi <= KERNPN
        invariant Conserved(free, pd.Sp(), rest, all) && all <= mem.Keys
        invariant SameData(old(mem), mem, rest + UserPages(pd.ptes))
        invariant pd.ptes == Without(p0, lo, if v < hi then v else hi)
        decreases KERNPN - v
      {
        if v / NPTE !in pd.tabs {
          SkipTable(free, pd.Sp(), rest, all, v);
          var next := (v / NPTE + 1) * NPTE;
          WithoutMore(p0, lo, v, if next < hi then next else hi);
          v := next - 1;
        } else if v in pd.ptes {
          DropUser(pd, v, rest, all);
          assert Without(p0, lo, v) - {v} == Without(p0, lo, v + 1);
        } else {
          WithoutMore(p0, lo, v, v + 1);
        }
        v := v + 1;
      }
      sz := newsz;
    }

    /** Unmap and free one user page. */
    method DropUser(pd: PageDir, v: nat, ghost rest: set<nat>, ghost all: set<nat>)
      requires Conserved(free, pd.Sp(), rest, all) && v in pd.ptes && v < KERNPN && all <= mem.Keys
      modifies this`free, this`mem, pd`ptes
      ensures Conserved(free, pd.Sp(), rest, all) && all <= mem.Keys
      ensures SameData(old(mem), mem, rest + UserPages(pd.ptes)) && UserPages(pd.ptes) <= UserPages(old(pd.ptes))
      ensures pd.ptes == old(pd.ptes) - {v}
    {
      hide Conserved, Distinct, Owned, NoDup, Set, UserPages;
      UserLess(free, pd.Sp(), rest, all, v);
      var x := pd.ptes[v].page;
      ghost var sp := pd.Sp();
      RestIn(free, sp, rest, all);
      PteDropped(free, sp, rest, all, v);
      Pushed(free, DropPte(sp, v), rest + {x}, all, x);
      assert rest + {x} - {x} == rest;
      Kfree(x);
      pd.ptes := pd.ptes - {v};
    }

    /**
     The body of allocuvm's loop: a zeroed page mapped at v. Otherwise nothing is mapped, and
     a page that could not be mapped is still in hand.
     */
    method GrowPage(pd: PageDir, v: nat, ghost rest: set<nat>, ghost all: set<nat>)
      returns (ok: bool, inHand: Option<nat>)
      requires Conserved(free, pd.Sp(), rest, all) && v < KERNPN && v !in pd.ptes && all <= mem.Keys
      modifies this`free, this`mem, pd`tabs, pd`ptes
      ensures all <= mem.Keys && SameData(old(mem), mem, rest + UserPages(old(pd.ptes)))
      ensures ok ==> Conserved(free, pd.Sp(), rest, all) && GrownBy(old(pd.ptes), pd.ptes, mem, v, v + 1)
                     && |old(free)| <= |free| + 2
      ensures !ok ==> pd.ptes == old(pd.ptes) && |old(free)| <= 1
      ensures ok <==> |old(free)| >= Takes(old(pd.tabs), v)
      ensures ok ==> PageTaken(|old(free)|, |free|, old(pd.tabs), pd.tabs, v)
      ensures !ok && inHand.None? ==> Conserved(free, pd.Sp(), rest, all)
      ensures !ok && inHand.Some? ==> Conserved(free, pd.Sp(), rest + {inHand.value}, all) && inHand.value !in rest
    {
      hide Conserved, Distinct, Owned, NoDup, Set, UserPages;
      RestIn(free, pd.Sp(), rest, all);
      ghost var f := free;
      inHand := Kalloc();
      if inHand.None? {
        return false, None;
      }
      var x := inHand.value;
      Popped(f, pd.Sp(), rest, all);
      NotUser(pd.Sp(), x);
      mem := mem[x := Zero()];
      ok := MapPage(pd, v, Pte(x, PTE_W + PTE_U), rest + {x}, all);
      assert rest + {x} - {x} == rest;
    }

    /** allocuvm's way out when memory is short: what it has mapped is unmapped and freed. */
    method Ungrow(pd: PageDir, oldsz: nat, newsz: nat, inHand: Option<nat>, ghost p0: map<nat, Pte>, ghost v: nat,
                  ghost m: map<nat, Data>, ghost rest: set<nat>, ghost all: set<nat>)
      requires oldsz < newsz < KERNBASE && Up(oldsz) <= v <= Up(newsz) && all <= mem.Keys
      requires Conserved(free, pd.Sp(), Hand(rest, inHand), all)
      requires (inHand.Some? ==> inHand.value !in rest) && GrownBy(p0, pd.ptes, m, Up(oldsz), v)
      requires forall w :: Up(oldsz) <= w < Up(newsz) ==> w !in p0
      modifies this`free, this`mem, pd`ptes
      ensures Conserved(free, pd.Sp(), rest, all) && all <= mem.Keys && pd.ptes == p0
      ensures SameData(old(mem), mem, rest + UserPages(p0))
    {
      hide Conserved, Distinct, Owned, NoDup, Set, UserPages, Up;
      ghost var hand := Hand(rest, inHand);
      GrownBack(p0, pd.ptes, m, Up(oldsz), v, Up(newsz));
      var sz := Deallocuvm(pd, newsz, oldsz, hand, all);
      if inHand.Some? {
        HandNotOurs(free, pd.Sp(), hand, all, inHand.value);
        Pushed(free, pd.Sp(), hand, all, inHand.value);
        assert hand - {inHand.value} == rest;
        Kfree(inHand.value);
      }
    }

    /** allocuvm's loop: a page for each place between the sizes, until one cannot be had. */
    method GrowAll(pd: PageDir, oldsz: nat, newsz: nat, ghost rest: set<nat>, ghost all: set<nat>)
      returns (ok: bool, inHand: Option<nat>, ghost at: nat, ghost m: map<nat, Data>)
      requires Conserved(free, pd.Sp(), rest, all) && all <= mem.Keys && oldsz <= newsz < KERNBASE
      requires forall v :: Up(oldsz) <= v < Up(newsz) ==> v !in pd.ptes
      modifies this`free, this`mem, pd`tabs, pd`ptes
      ensures all <= mem.Keys && SameData(old(mem), mem, rest + UserPages(old(pd.ptes)))
      ensures Up(oldsz) <= at <= Up(newsz) && GrownBy(old(pd.ptes), pd.ptes, m, Up(oldsz), at)
      ensures Conserved(free, pd.Sp(), Hand(rest, inHand), all) && (inHand.Some? ==> inHand.value !in rest)
      ensures ok ==> m == mem && at == Up(newsz) && inHand.None?
      ensures Up(oldsz) <= Up(newsz) && (ok <==> |old(free)| >= Need(old(pd.tabs), Up(oldsz), Up(newsz)))
      ensures !ok ==> |old(free)| < 2 * (Up(newsz) - Up(oldsz))
    {
      hide Conserved, Distinct, Owned, NoDup, Set, UserPages, Up, GrownBy, Need, Spent, SameData, Takes, PageTaken;
      RestIn(free, pd.Sp(), rest, all);
      SameDataRefl(mem, rest + UserPages(pd.ptes));
      ghost var p0, lo, m0 := pd.ptes, Up(oldsz), mem;
      UpSmall(oldsz, newsz);
      SpentNone(|free|, pd.tabs, lo);
      GrownNone(p0, mem, lo);
      var v := Up(oldsz);
      while v * PGSIZE < newsz
        invariant lo <= v <= Up(newsz)
        invariant Conserved(free, pd.Sp(), rest, all) && all <= mem.Keys
        invariant SameData(m0, mem, rest + UserPages(p0)) && GrownBy(p0, pd.ptes, mem, lo, v)
        invariant Spent(|old(free)|, |free|, old(pd.tabs), pd.tabs, lo, v)
      {
        UpIs(newsz, v);
        ghost var p1, m1, f1, t1 := pd.ptes, mem, |free|, pd.tabs;
        GrownUser(p0, p1, mem, lo, v);
        NotGrown(p0, p1, mem, lo, v);
        SpentNext(|old(free)|, f1, old(pd.tabs), t1, lo, v, Up(newsz));
        ok, inHand := GrowPage(pd, v, rest, all);
        SameDataTrans(m0, m1, mem, rest + UserPages(p0), rest + UserPages(p1));
        if !ok {
          at, m := v, m1;
          return;
        }
        GrownMore(p0, p1, pd.ptes, m1, mem, lo, v, rest);
        SpentMore(|old(free)|, f1, |free|, old(pd.tabs), t1, pd.tabs, lo, v);
        v := v + 1;
      }
      UpIs(newsz, v);
      SpentAll(|old(free)|, |free|, old(pd.tabs), pd.tabs, lo, v);
      ok, inHand, at, m := true, None, v, mem;
    }

    /**
     allocuvm on a space with nothing mapped between the two sizes: it grows by zeroed pages, or
     the user mapping is exactly as before. It fails exactly for a size that reaches the kernel, or
     if there are fewer free pages than new pages and the tables missing for them.
     */
    method Allocuvm(pd: PageDir, oldsz: nat, newsz: nat, ghost rest: set<nat>, ghost all: set<nat>) returns (r: nat)
      requires Conserved(free, pd.Sp(), rest, all) && all <= mem.Keys
      requires forall v :: Up(oldsz) <= v < Up(newsz) ==> v !in pd.ptes
      modifies this`free, this`mem, pd`tabs, pd`ptes
      ensures Conserved(free, pd.Sp(), rest, all) && all <= mem.Keys
      ensures SameData(old(mem), mem, rest + UserPages(old(pd.ptes)))
      ensures newsz >= KERNBASE ==> r == 0 && pd.ptes == old(pd.ptes)
      ensures newsz < KERNBASE && newsz < oldsz ==> r == oldsz && pd.ptes == old(pd.ptes)
      ensures oldsz <= newsz < KERNBASE ==>
        || (r == newsz && GrownBy(old(pd.ptes), pd.ptes, mem, Up(oldsz), Up(newsz)))
        || (r == 0 && pd.ptes == old(pd.ptes) && |old(free)| < 2 * (Up(newsz) - Up(oldsz)))
      ensures oldsz <= newsz < KERNBASE ==>
        && Up(oldsz) <= Up(newsz)
        && if |old(free)| >= Need(old(pd.tabs), Up(oldsz), Up(newsz))
           then r == newsz && GrownBy(old(pd.ptes), pd.ptes, mem, Up(oldsz), Up(newsz))
           else r == 0 && pd.ptes == old(pd.ptes)
    {
      hide Conserved, Distinct, Owned, NoDup, Set, UserPages, Up, GrownBy, Need;
      RestIn(free, pd.Sp(), rest, all);
      if newsz >= KERNBASE {
        return 0;
      }
      if newsz < oldsz {
        return oldsz;
      }
      ghost var p0, m0 := pd.ptes, mem;
      UpSmall(oldsz, newsz);
      ghost var at, m;
      var ok, inHand;
      ok, inHand, at, m := GrowAll(pd, oldsz, newsz, rest, all);
      if !ok {
        ghost var m2 := mem;
        UpLess(oldsz, newsz);
        Ungrow(pd, oldsz, newsz, inHand, p0, at, m, rest, all);
        SameDataTrans(m0, m2, mem, rest + UserPages(p0), rest + UserPages(p0));
        return 0;
      }
      r := newsz;
    }

    /** freevm: every page the space owned goes back to the free list, once. */
    method Freevm(pd: PageDir, ghost rest: set<nat>, ghost all: set<nat>)
      requires Conserved(free, pd.Sp(), rest, all) && all <= mem.Keys
      modifies this`free, this`mem, pd`ptes
      ensures ConservedFree(free, rest, all) && all <= mem.Keys && SameData(old(mem), mem, rest)
    {
      hide Conserved, Distinct, Owned, NoDup, Set, UserPages, ConservedFree, Left;
      var sz := Deallocuvm(pd, KERNBASE, 0, rest, all);
      RestIn(free, pd.Sp(), rest, all);
      NoUserLeft(free, pd.Sp(), rest, all);
      ghost var m := mem;
      var i := 0;
      while i < NPDE
        invariant 0 <= i <= NPDE && all <= mem.Keys && SameData(m, mem, rest)
        invariant Left(free, pd.pgdir, pd.tabs, i, rest, all)
      {
        LeftNext(free, pd.pgdir, pd.tabs, i, rest, all);
        if i in pd.tabs {
          Kfree(pd.tabs[i]);
        }
        i := i + 1;
      }
      LeftLast(free, pd.pgdir, pd.tabs, rest, all);
      Kfree(pd.pgdir);
      SameDataTrans(old(mem), m, mem, rest, rest);
    }

    /** mappages for a range of kernel pages. */
    method Mappages(pd: PageDir, a: nat, n: nat, pa: nat, perm: nat, ghost rest: set<nat>, ghost all: set<nat>)
      returns (ok: bool)
      requires Conserved(free, pd.Sp(), rest, all) && KERNPN <= a && a + n <= NVPN
      requires forall v :: a <= v < a + n ==> v !in pd.ptes
      modifies this`free, pd`tabs, pd`ptes
      ensures Conserved(free, pd.Sp(), rest, all)
      ensures ok ==> Mapped(old(pd.ptes), pd.ptes, Seg(a, n, pa, perm)) && |old(free)| <= |free| + n
      ensures !ok ==> |old(free)| < n
    {
      hide Conserved, Distinct, Owned, NoDup, Set, UserPages;
      ghost var p0 := pd.ptes;
      var k := 0;
      while k < n
        invariant 0 <= k <= n && Conserved(free, pd.Sp(), rest, all)
        invariant Mapped(p0, pd.ptes, Seg(a, k, pa, perm)) && |old(free)| <= |free| + k
      {
        ok := MapPage(pd, a + k, Pte(pa + k, perm), rest, all);
        if !ok {
          return;
        }
        k := k + 1;
      }
      ok := true;
    }

    /** setupkvm: a new space with the kernel's mappings and no user page, or the free pages are as before. */
    method Setupkvm(kmap: seq<Seg>, ghost rest: set<nat>, ghost all: set<nat>) returns (r: Option<PageDir>)
      requires ConservedFree(free, rest, all) && all <= mem.Keys && GoodKmap(kmap)
      modifies this`free, this`mem
      ensures all <= mem.Keys && SameData(old(mem), mem, rest)
      ensures r.None? ==> ConservedFree(free, rest, all) && |old(free)| <= Sum(kmap, |kmap|)
      ensures r.Some? ==>
                fresh(r.value) && Conserved(free, r.value.Sp(), rest, all) && KernelOnly(r.value.ptes, kmap, |kmap|)
      ensures r.Some? ==> |old(free)| <= |free| + 1 + Sum(kmap, |kmap|)
    {
      hide Conserved, Distinct, Owned, NoDup, Set, UserPages, ConservedFree, KernelOnly, GoodKmap, Mapped;
      FreeRest(free, rest, all);
      ghost var f := free;
      var page := Kalloc();
      if page.None? {
        return None;
      }
      var pd := new PageDir(page.value);
      NewSpace(f, rest, all);
      NoneMapped(kmap);
      var k := 0;
      while k < |kmap|
        invariant 0 <= k <= |kmap| && Conserved(free, pd.Sp(), rest, all) && mem == old(mem)
        invariant KernelOnly(pd.ptes, kmap, k) && |old(free)| <= |free| + 1 + Sum(kmap, k)
      {
        SumGrows(kmap, k + 1, |kmap|);
        NotYetMapped(pd.ptes, kmap, k);
        ghost var p1 := pd.ptes;
        var ok := Mappages(pd, kmap[k].vpn, kmap[k].n, kmap[k].ppn, kmap[k].perm, rest, all);
        if !ok {
          Freevm(pd, rest, all);
          return None;
        }
        KernelMore(p1, pd.ptes, kmap, k);
        k := k + 1;
      }
      r := Some(pd);
    }

    /** The body of copyuvm's loop: a copy of the page at v. */
    method CopyPage(d: PageDir, v: nat, p: Pte, ghost rest: set<nat>, ghost all: set<nat>) returns (ok: bool)
      requires Conserved(free, d.Sp(), rest, all) && v < KERNPN && v !in d.ptes && all <= mem.Keys && p.page in rest
      modifies this`free, this`mem, d`tabs, d`ptes
      ensures Conserved(free, d.Sp(), rest, all) && all <= mem.Keys
              && SameData(old(mem), mem, rest + UserPages(old(d.ptes)))
      ensures ok ==>
        && v in d.ptes && d.ptes == old(d.ptes)[v := d.ptes[v]] && d.ptes[v].perm == p.perm
        && d.ptes[v].page in mem && mem[d.ptes[v].page] == mem[p.page] && |old(free)| <= |free| + 2
      ensures !ok ==> |old(free)| <= 1
    {
      hide Conserved, Distinct, Owned, NoDup, Set, UserPages;
      RestIn(free, d.Sp(), rest, all);
      ghost var f := free;
      var x := Kalloc();
      if x.None? {
        return false;
      }
      Popped(f, d.Sp(), rest, all);
      NotUser(d.Sp(), x.value);
      mem := mem[x.value := mem[p.page]];
      ok := MapPage(d, v, Pte(x.value, p.perm), rest + {x.value}, all);
      assert rest + {x.value} - {x.value} == rest;
      if !ok {
        Pushed(free, d.Sp(), rest + {x.value}, all, x.value);
        Kfree(x.value);
      }
    }

    /**
     copyuvm: a new space with the same user pages, by permission and contents, and the kernel's
     mappings; or, for want of memory, the free pages are as before. A missing page of the parent
     is a panic.
     */
    method Copyuvm(parent: PageDir, sz: nat, kmap: seq<Seg>, ghost rest: set<nat>, ghost all: set<nat>)
      returns (r: Copy)
      requires ConservedFree(free, rest, all) && all <= mem.Keys && GoodKmap(kmap) && sz <= KERNBASE
      requires UserPages(parent.ptes) <= rest
      modifies this`free, this`mem
      ensures all <= mem.Keys && SameData(old(mem), mem, rest)
      ensures r.Panic? ==> exists v: nat :: v < Up(sz) && v !in parent.ptes
      ensures r.NoMemory? ==> ConservedFree(free, rest, all) && |old(free)| <= Sum(kmap, |kmap|) + 2 * Up(sz)
      ensures r.Copied? ==>
                fresh(r.d) && Conserved(free, r.d.Sp(), rest, all) && CopyOf(parent.ptes, r.d.ptes, mem, Up(sz))
      ensures r.Copied? ==> KernelOnly(KernelPart(r.d.ptes), kmap, |kmap|)
    {
      hide Conserved, Distinct, Owned, NoDup, Set, UserPages, ConservedFree, KernelOnly, GoodKmap, Up;
      var d0 := Setupkvm(kmap, rest, all);
      if d0.None? {
        return NoMemory;
      }
      var d := d0.value;
      KernelHigh(d.ptes, kmap);
      assert KernelPart(d.ptes) == d.ptes;
      ghost var m := mem;
      UpHigh(sz);
      var v := 0;
      while v * PGSIZE < sz
        invariant v <= Up(sz) <= KERNPN && Conserved(free, d.Sp(), rest, all) && all <= mem.Keys
        invariant SameData(old(mem), mem, rest) && CopyOf(parent.ptes, d.ptes, mem, v)
        invariant |old(free)| <= |free| + 1 + Sum(kmap, |kmap|) + 2 * v
        invariant KernelOnly(KernelPart(d.ptes), kmap, |kmap|)
      {
        UpIs(sz, v);
        if v !in parent.ptes {
          return Panic;
        }
        ghost var p1, m1 := d.ptes, mem;
        UserIn(parent.ptes, v);
        var ok := CopyPage(d, v, parent.ptes[v], rest, all);
        SameDataTrans(old(mem), m1, mem, rest, rest + UserPages(p1));
        if !ok {
          Freevm(d, rest, all);
          return NoMemory;
        }
        CopiedMore(parent.ptes, p1, d.ptes, m1, mem, v, rest);
        assert KernelPart(d.ptes) == KernelPart(p1);
        v := v + 1;
      }
      UpIs(sz, v);
      r := Copied(d);
    }
  }

  datatype Copy = Panic | NoMemory | Copied(d: PageDir)

  /** The user entries of q are the first n pages, with the permissions and contents of p's. */
  ghost predicate CopyOf(p: map<nat, Pte>, q: map<nat, Pte>, mem: map<nat, Data>, n: nat) {
    && (forall v: nat :: v in q && v < KERNPN ==> v < n)
    && (forall v: nat :: v < n ==> v in q && v in p && q[v].perm == p[v].perm)
    && (forall v: nat :: v < n && v in q && v in p ==>
          q[v].page in mem && p[v].page in mem && mem[q[v].page] == mem[p[v].page])
  }

  /** The entries above the user's part of a space. */
  function KernelPart(ptes: map<nat, Pte>): (k: map<nat, Pte>) {
    map v | v in ptes && v >= KERNPN :: ptes[v]
  }

  lemma KernelHigh(ptes: map<nat, Pte>, kmap: seq<Seg>)
    requires GoodKmap(kmap) && KernelOnly(ptes, kmap, |kmap|)
    ensures forall v: nat :: v in ptes ==> v >= KERNPN
  {
  }

  lemma UpHigh(sz: nat)
    requires sz <= KERNBASE
    ensures Up(sz) <= KERNPN
  {
  }

  lemma UserIn(ptes: map<nat, Pte>, v: nat)
    requires v in ptes && v < KERNPN
    ensures ptes[v].page in UserPages(ptes)
  {
  }

  lemma CopiedMore(p: map<nat, Pte>, q: map<nat, Pte>, r: map<nat, Pte>, m: map<nat, Data>, n: map<nat, Data>, v: nat,
                   rest: set<nat>)
    requires CopyOf(p, q, m, v) && v < KERNPN && v in p && v in r && r == q[v := r[v]] && r[v].perm == p[v].perm
    requires r[v].page in n && p[v].page in n && n[r[v].page] == n[p[v].page]
    requires SameData(m, n, rest + UserPages(q)) && UserPages(p) <= rest
    ensures CopyOf(p, r, n, v + 1)
  {
    forall w: nat | w < v ensures r[w].page in n && p[w].page in n && n[r[w].page] == n[p[w].page] {
      assert q[w].page in UserPages(q) && p[w].page in UserPages(p);
    }
  }

  /** A segment of the kernel's mappings. */
  datatype Seg = Seg(vpn: nat, n: nat, ppn: nat, perm: nat)

  ghost predicate GoodKmap(kmap: seq<Seg>) {
    && (forall k :: 0 <= k < |kmap| ==> KERNPN <= kmap[k].vpn && kmap[k].vpn + kmap[k].n <= NVPN)
    && (forall j, k :: 0 <= j < k < |kmap| ==>
         kmap[j].vpn + kmap[j].n <= kmap[k].vpn || kmap[k].vpn + kmap[k].n <= kmap[j].vpn)
  }

  /** How many pages the first m segments have; each needs at most one table. */
  function Sum(kmap: seq<Seg>, m: nat): (n: nat)
    requires m <= |kmap|
  {
    if m == 0 then 0 else Sum(kmap, m - 1) + kmap[m - 1].n
  }

  lemma {:induction false} SumGrows(kmap: seq<Seg>, k: nat, m: nat)
    requires k <= m <= |kmap|
    ensures Sum(kmap, k) <= Sum(kmap, m)
  {
    if k < m {
      SumGrows(kmap, k, m - 1);
    }
  }

  predicate InSeg(s: Seg, v: nat) {
    s.vpn <= v < s.vpn + s.n
  }

  /** The entries are those of the first m segments. */
  ghost predicate KernelOnly(ptes: map<nat, Pte>, kmap: seq<Seg>, m: nat)
    requires m <= |kmap|
  {
    && (forall v :: v in ptes ==> exists k :: 0 <= k < m && InSeg(kmap[k], v))
    && (forall k, v: nat :: 0 <= k < m && InSeg(kmap[k], v) ==>
          v in ptes && ptes[v] == Pte(kmap[k].ppn + (v - kmap[k].vpn), kmap[k].perm))
  }

  /** q is p with the entries of a segment added. */
  ghost predicate Mapped(p: map<nat, Pte>, q: map<nat, Pte>, s: Seg) {
    && (forall v: nat :: v in q <==> v in p || InSeg(s, v))
    && (forall v: nat :: v in p && !InSeg(s, v) ==> q[v] == p[v])
    && (forall v: nat :: InSeg(s, v) ==> v in q && q[v] == Pte(s.ppn + (v - s.vpn), s.perm))
  }

  lemma NoneMapped(kmap: seq<Seg>)
    ensures KernelOnly(map[], kmap, 0)
  {
  }

  lemma NotYetMapped(ptes: map<nat, Pte>, kmap: seq<Seg>, k: nat)
    requires GoodKmap(kmap) && k < |kmap| && KernelOnly(ptes, kmap, k)
    ensures KERNPN <= kmap[k].vpn && kmap[k].vpn + kmap[k].n <= NVPN
    ensures forall v: nat :: kmap[k].vpn <= v < kmap[k].vpn + kmap[k].n ==> v !in ptes
  {
  }

  lemma KernelMore(p: map<nat, Pte>, q: map<nat, Pte>, kmap: seq<Seg>, k: nat)
    requires GoodKmap(kmap) && k < |kmap| && KernelOnly(p, kmap, k) && Mapped(p, q, kmap[k])
    ensures KernelOnly(q, kmap, k + 1)
  {
    forall v | v in q ensures exists j :: 0 <= j < k + 1 && InSeg(kmap[j], v) {
      if v in p {
        var j :| 0 <= j < k && InSeg(kmap[j], v);
      } else {
        assert InSeg(kmap[k], v);
      }
    }
  }

  lemma FreeRest(free: seq<nat>, rest: set<nat>, all: set<nat>)
    requires ConservedFree(free, rest, all)
    ensures rest <= all
  {
  }

  /** A page just allocated makes an empty space. */
  lemma NewSpace(free: seq<nat>, rest: set<nat>, all: set<nat>)
    requires ConservedFree(free, rest, all) && free != []
    ensures Conserved(free[1..], Space(free[0], map[], map[]), rest, all)
  {
    PopSet(free);
    var sp := Space(free[0], map[], map[]);
    assert sp.tabs.Values == {} && UserPages(sp.ptes) == {};
    assert Owned(sp) == {free[0]};
  }

  lemma NoUserLeft(free: seq<nat>, sp: Space, rest: set<nat>, all: set<nat>)
    requires Conserved(free, sp, rest, all) && forall v :: v in sp.ptes ==> v >= KERNPN
    ensures Left(free, sp.pgdir, sp.tabs, 0, rest, all)
  {
    assert UserPages(sp.ptes) == {};
    assert TabsFrom(sp.tabs, 0) == sp.tabs.Values;
  }

  function TabsFrom(tabs: map<nat, nat>, i: nat): (s: set<nat>) {
    set j | j in tabs && j >= i :: tabs[j]
  }

  /** The directory and the tables from i on are still to be freed. */
  ghost predicate Left(free: seq<nat>, pgdir: nat, tabs: map<nat, nat>, i: nat, rest: set<nat>, all: set<nat>) {
    && NoDup(free) && pgdir !in Set(free) && pgdir !in rest && pgdir !in TabsFrom(tabs, i)
    && Set(free) !! TabsFrom(tabs, i) && Set(free) !! rest && TabsFrom(tabs, i) !! rest
    && Set(free) + {pgdir} + TabsFrom(tabs, i) + rest == all
    && (forall j, k :: j in tabs && k in tabs && tabs[j] == tabs[k] ==> j == k)
    && (forall j :: j in tabs ==> j < NPDE)
  }

  lemma LeftNext(free: seq<nat>, pgdir: nat, tabs: map<nat, nat>, i: nat, rest: set<nat>, all: set<nat>)
    requires Left(free, pgdir, tabs, i, rest, all)
    ensures Left(if i in tabs then [tabs[i]] + free else free, pgdir, tabs, i + 1, rest, all)
    ensures i in tabs ==> tabs[i] in all && tabs[i] !in rest
  {
    hide Set, NoDup;
    if i in tabs {
      assert tabs[i] in TabsFrom(tabs, i);
      PushSet(free, tabs[i]);
      assert TabsFrom(tabs, i) == TabsFrom(tabs, i + 1) + {tabs[i]};
      assert tabs[i] !in TabsFrom(tabs, i + 1);
    } else {
      assert TabsFrom(tabs, i) == TabsFrom(tabs, i + 1);
    }
  }

  lemma LeftLast(free: seq<nat>, pgdir: nat, tabs: map<nat, nat>, rest: set<nat>, all: set<nat>)
    requires Left(free, pgdir, tabs, NPDE, rest, all)
    ensures ConservedFree([pgdir] + free, rest, all) && pgdir in all && pgdir !in rest
  {
    assert TabsFrom(tabs, NPDE) == {};
    PushSet(free, pgdir);
  }

  lemma UpBounds(newsz: nat, oldsz: nat)
    requires newsz < oldsz <= KERNBASE
    ensures Up(newsz) <= Up(oldsz) <= KERNPN
  {
  }

  lemma PopSubset(free: seq<nat>)
    ensures free != [] ==> Set(free[1..]) <= Set(free)
  {
  }

  lemma RestIn(free: seq<nat>, sp: Space, rest: set<nat>, all: set<nat>)
    requires Conserved(free, sp, rest, all)
    ensures rest <= all && UserPages(sp.ptes) <= all
  {
  }

  lemma UserLess(free: seq<nat>, sp: Space, rest: set<nat>, all: set<nat>, v: nat)
    requires Conserved(free, sp, rest, all) && v in sp.ptes && v < KERNPN
    ensures UserPages(sp.ptes - {v}) <= UserPages(sp.ptes) - {sp.ptes[v].page}
  {
  }

  /** Without a table there are no entries. */
  lemma SkipTable(free: seq<nat>, sp: Space, rest: set<nat>, all: set<nat>, v: nat)
    requires Conserved(free, sp, rest, all) && v / NPTE !in sp.tabs && v < KERNPN
    ensures forall w :: v <= w < (v / NPTE + 1) * NPTE ==> w !in sp.ptes
    ensures v < (v / NPTE + 1) * NPTE <= KERNPN
  {
    forall w | v <= w < (v / NPTE + 1) * NPTE ensures w !in sp.ptes {
      assert w / NPTE == v / NPTE;
    }
  }

  lemma WithoutMore(ptes: map<nat, Pte>, lo: nat, v: nat, next: nat)
    requires lo <= v <= next && forall w :: v <= w < next ==> w !in Without(ptes, lo, v)
    ensures Without(ptes, lo, next) == Without(ptes, lo, v)
  {
  }

  /** rest and a page in hand, if there is one. */
  function Hand(rest: set<nat>, inHand: Option<nat>): (s: set<nat>) {
    if inHand.Some? then rest + {inHand.value} else rest
  }

  /** The tables that are missing for the virtual pages from lo up to hi. */
  function NoTables(tabs: map<nat, nat>, lo: nat, hi: nat): (s: set<nat>) {
    set v: nat | lo <= v < hi && v / NPTE !in tabs :: v / NPTE
  }

  /** The pages it takes to map page v: itself, and a table unless it is there. */
  function Takes(tabs: map<nat, nat>, v: nat): (n: nat) {
    if v / NPTE in tabs then 1 else 2
  }

  ghost predicate PageTaken(f: nat, f': nat, t: map<nat, nat>, t': map<nat, nat>, v: nat) {
    f' + Takes(t, v) == f && t'.Keys == t.Keys + {v / NPTE}
  }

  /** The pages it takes to map them: one each, and the missing tables. */
  function Need(tabs: map<nat, nat>, lo: nat, hi: nat): (n: nat)
    requires lo <= hi
  {
    hi - lo + |NoTables(tabs, lo, hi)|
  }

  /** Of f0 free pages f are left, and the tables have become t, once the pages from lo up to v are mapped. */
  ghost predicate Spent(f0: nat, f: nat, tabs: map<nat, nat>, t: map<nat, nat>, lo: nat, v: nat) {
    lo <= v && f0 == f + (v - lo) + |NoTables(tabs, lo, v)| && t.Keys == tabs.Keys + NoTables(tabs, lo, v)
  }

  lemma SpentNone(f: nat, tabs: map<nat, nat>, lo: nat)
    ensures Spent(f, f, tabs, tabs, lo, lo)
  {
    assert NoTables(tabs, lo, lo) == {};
  }

  /** If the next page cannot be had, there are too few. */
  lemma SpentNext(f0: nat, f: nat, tabs: map<nat, nat>, t: map<nat, nat>, lo: nat, v: nat, hi: nat)
    requires Spent(f0, f, tabs, t, lo, v) && v < hi
    ensures lo <= hi && (f < Takes(t, v) ==> f0 < Need(tabs, lo, hi) <= 2 * (hi - lo))
  {
    hide NoTables;
    NextTable(tabs, lo, v);
    TablesGrow(tabs, lo, v + 1, hi);
    TablesFew(tabs, lo, hi);
  }

  lemma SpentMore(f0: nat, f: nat, f': nat, tabs: map<nat, nat>, t: map<nat, nat>, t': map<nat, nat>, lo: nat, v: nat)
    requires Spent(f0, f, tabs, t, lo, v) && PageTaken(f, f', t, t', v)
    ensures Spent(f0, f', tabs, t', lo, v + 1)
  {
    hide NoTables;
    NextTable(tabs, lo, v);
    KeysMore(tabs.Keys, NoTables(tabs, lo, v), NoTables(tabs, lo, v + 1), v / NPTE, t.Keys);
  }

  lemma KeysMore(k: set<nat>, n: set<nat>, n': set<nat>, i: nat, t: set<nat>)
    requires t == k + n && n' == n + if i in k then {} else {i}
    ensures t + {i} == k + n' && (i in t <==> i in k || i in n)
  {
  }

  lemma SpentAll(f0: nat, f: nat, tabs: map<nat, nat>, t: map<nat, nat>, lo: nat, v: nat)
    requires Spent(f0, f, tabs, t, lo, v)
    ensures f0 >= Need(tabs, lo, v)
  {
  }

  /** One page more needs one table more exactly if its own is not there yet. */
  lemma NextTable(tabs: map<nat, nat>, lo: nat, v: nat)
    requires lo <= v
    ensures NoTables(tabs, lo, v + 1) == NoTables(tabs, lo, v) + if v / NPTE in tabs then {} else {v / NPTE}
    ensures |NoTables(tabs, lo, v + 1)| ==
      |NoTables(tabs, lo, v)| + if v / NPTE in tabs || v / NPTE in NoTables(tabs, lo, v) then 0 else 1
  {
    var s, t := NoTables(tabs, lo, v), NoTables(tabs, lo, v + 1);
    forall i ensures i in t <==> i in s || (i == v / NPTE && v / NPTE !in tabs) {
      if i in t {
        var w: nat :| lo <= w < v + 1 && w / NPTE !in tabs && i == w / NPTE;
      }
    }
    assert t == s + if v / NPTE in tabs then {} else {v / NPTE};
  }

  lemma {:induction false} TablesGrow(tabs: map<nat, nat>, lo: nat, v: nat, hi: nat)
    requires lo <= v <= hi
    ensures |NoTables(tabs, lo, v)| <= |NoTables(tabs, lo, hi)|
    decreases hi - v
  {
    hide NoTables;
    if v < hi {
      NextTable(tabs, lo, v);
      TablesGrow(tabs, lo, v + 1, hi);
    }
  }

  lemma NotGrown(p: map<nat, Pte>, q: map<nat, Pte>, mem: map<nat, Data>, lo: nat, v: nat)
    requires GrownBy(p, q, mem, lo, v) && v !in p
    ensures v !in q
  {
  }

  lemma {:induction false} TablesFew(tabs: map<nat, nat>, lo: nat, hi: nat)
    requires lo <= hi
    ensures |NoTables(tabs, lo, hi)| <= hi - lo
    decreases hi
  {
    if lo < hi {
      hide NoTables;
      NextTable(tabs, lo, hi - 1);
      TablesFew(tabs, lo, hi - 1);
    } else {
      assert NoTables(tabs, lo, hi) == {};
    }
  }

  lemma GrownNone(p: map<nat, Pte>, mem: map<nat, Data>, lo: nat)
    ensures GrownBy(p, p, mem, lo, lo)
  {
  }

  const PTE_W := 2
  const PTE_U := 4

  function Zero(): (d: Data)
    ensures |d| == PGSIZE && forall k :: 0 <= k < PGSIZE ==> d[k] == 0
  {
    seq(PGSIZE, _ => 0)
  }

  /** q is p with zeroed, writable user pages for the virtual pages from lo up to hi. */
  ghost predicate GrownBy(p: map<nat, Pte>, q: map<nat, Pte>, mem: map<nat, Data>, lo: nat, hi: nat) {
    && (forall v :: v in q <==> v in p || lo <= v < hi)
    && (forall v :: v in p && !(lo <= v < hi) ==> q[v] == p[v])
    && (forall v :: lo <= v < hi ==>
         v in q && q[v].perm == PTE_W + PTE_U && q[v].page in mem && mem[q[v].page] == Zero())
  }

  lemma NotUser(sp: Space, x: nat)
    requires x !in Owned(sp)
    ensures x !in UserPages(sp.ptes)
  {
  }

  lemma UpSmall(oldsz: nat, newsz: nat)
    requires oldsz <= newsz < KERNBASE
    ensures Up(oldsz) <= Up(newsz) <= KERNPN
  {
  }

  lemma UpLess(oldsz: nat, newsz: nat)
    requires oldsz <= newsz
    ensures Up(oldsz) < Up(newsz) ==> oldsz < newsz
  {
  }

  lemma UpIs(sz: nat, v: nat)
    ensures v * PGSIZE < sz <==> v < Up(sz)
  {
  }

  lemma SameDataRefl(m: map<nat, Data>, s: set<nat>)
    requires s <= m.Keys
    ensures SameData(m, m, s)
  {
  }

  lemma SameDataTrans(a: map<nat, Data>, b: map<nat, Data>, c: map<nat, Data>, s: set<nat>, t: set<nat>)
    requires SameData(a, b, s) && SameData(b, c, t) && s <= t
    ensures SameData(a, c, s)
  {
  }

  lemma GrownUser(p: map<nat, Pte>, q: map<nat, Pte>, mem: map<nat, Data>, lo: nat, hi: nat)
    requires GrownBy(p, q, mem, lo, hi) && forall v :: lo <= v < hi ==> v !in p
    ensures UserPages(p) <= UserPages(q)
  {
    forall x | x in UserPages(p) ensures x in UserPages(q) {
      var v :| v in p && v < KERNPN && p[v].page == x;
      assert q[v].page == x;
    }
  }

  lemma GrownBack(p: map<nat, Pte>, q: map<nat, Pte>, mem: map<nat, Data>, lo: nat, v: nat, hi: nat)
    requires GrownBy(p, q, mem, lo, v) && lo <= v <= hi && forall w :: lo <= w < hi ==> w !in p
    ensures Without(q, lo, hi) == p
  {
  }

  lemma GrownMore(p: map<nat, Pte>, q: map<nat, Pte>, r: map<nat, Pte>, m: map<nat, Data>, n: map<nat, Data>,
                  lo: nat, v: nat, rest: set<nat>)
    requires GrownBy(p, q, m, lo, v) && GrownBy(q, r, n, v, v + 1) && lo <= v < KERNPN && v !in q
    requires SameData(m, n, rest + UserPages(q))
    ensures GrownBy(p, r, n, lo, v + 1)
  {
    forall w | lo <= w < v ensures w in r && r[w].perm == PTE_W + PTE_U && r[w].page in n && n[r[w].page] == Zero() {
      assert q[w].page in UserPages(q);
    }
  }

  lemma HandNotOurs(free: seq<nat>, sp: Space, rest: set<nat>, all: set<nat>, x: nat)
    requires Conserved(free, sp, rest, all) && x in rest
    ensures x !in UserPages(sp.ptes) && rest <= all && UserPages(sp.ptes) <= all
  {
  }
}
