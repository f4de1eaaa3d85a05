/**
 Who has which page: the free list, one address space, and everything else. The pages an
 address space owns are its directory, its page tables and its user pages.
 */
module Pages {

  const PGSIZE := 4096
  const NPTE := 1024
  const NPDE := 1024
  const KERNPN := 0x80000       // first virtual page of the kernel, KERNBASE / PGSIZE
  const KERNBASE := KERNPN * PGSIZE

  datatype Pte = Pte(page: nat, perm: nat)

  /** A page directory: its page, the tables it names by index, and the entries by virtual page. */
  datatype Space = Space(pgdir: nat, tabs: map<nat, nat>, ptes: map<nat, Pte>)

  function UserPages(ptes: map<nat, Pte>): (s: set<nat>) {
    set v | v in ptes && v < KERNPN :: ptes[v].page
  }

  function Owned(sp: Space): (s: set<nat>) {
    {sp.pgdir} + sp.tabs.Values + UserPages(sp.ptes)
  }

  /** No page serves the space twice, and every entry lies in a table that exists. */
  ghost predicate Distinct(sp: Space) {
    && sp.pgdir !in sp.tabs.Values && sp.pgdir !in UserPages(sp.ptes) && sp.tabs.Values !! UserPages(sp.ptes)
    && (forall i, j :: i in sp.tabs && j in sp.tabs && sp.tabs[i] == sp.tabs[j] ==> i == j)
    && (forall v, w ::
          v in sp.ptes && w in sp.ptes && v < KERNPN && w < KERNPN && sp.ptes[v].page == sp.ptes[w].page ==> v == w)
    && (forall v :: v in sp.ptes ==> v / NPTE in sp.tabs)
    && (forall i :: i in sp.tabs ==> i < NPDE)
  }

  function Set(s: seq<nat>): (r: set<nat>) {
    set x | x in s
  }

  ghost predicate NoDup(s: seq<nat>) {
    forall i, j :: 0 <= i < j < |s| ==> s[i] != s[j]
  }

  /** The free list, the space and the rest share nothing and together make up all pages. */
  ghost predicate Conserved(free: seq<nat>, sp: Space, rest: set<nat>, all: set<nat>) {
    && NoDup(free) && Distinct(sp)
    && Set(free) !! Owned(sp) && Set(free) !! rest && Owned(sp) !! rest
    && Set(free) + Owned(sp) + rest == all
  }

  /** Without an address space. */
  ghost predicate ConservedFree(free: seq<nat>, rest: set<nat>, all: set<nat>) {
    NoDup(free) && Set(free) !! rest && Set(free) + rest == all
  }

  // ---------------------------------------------------------------- single steps

  lemma PopSet(free: seq<nat>)
    requires free != [] && NoDup(free)
    ensures NoDup(free[1..]) && free[0] !in Set(free[1..]) && Set(free) == Set(free[1..]) + {free[0]}
  {
    assert free == [free[0]] + free[1..];
  }

  lemma PushSet(free: seq<nat>, x: nat)
    requires NoDup(free) && x !in Set(free)
    ensures NoDup([x] + free) && Set([x] + free) == Set(free) + {x}
  {
  }

  /** kalloc: the page goes to the rest, in the caller's hand. */
  lemma Popped(free: seq<nat>, sp: Space, rest: set<nat>, all: set<nat>)
    requires Conserved(free, sp, rest, all) && free != []
    ensures Conserved(free[1..], sp, rest + {free[0]}, all)
    ensures free[0] !in rest && free[0] !in Owned(sp) && free[0] in all
  {
    hide Owned, Distinct;
    PopSet(free);
  }

  /** kfree of a page in hand. */
  lemma Pushed(free: seq<nat>, sp: Space, rest: set<nat>, all: set<nat>, x: nat)
    requires Conserved(free, sp, rest, all) && x in rest
    ensures Conserved([x] + free, sp, rest - {x}, all)
  {
    hide Owned, Distinct;
    PushSet(free, x);
  }

  function AddTab(sp: Space, i: nat, x: nat): (r: Space) {
    sp.(tabs := sp.tabs[i := x])
  }

  lemma ValuesAdded(m: map<nat, nat>, i: nat, x: nat)
    requires i !in m
    ensures m[i := x].Values == m.Values + {x}
  {
    var n := m[i := x];
    forall y ensures y in n.Values <==> y in m.Values + {x} {
      if y in m.Values {
        var j :| j in m && m[j] == y;
        assert n[j] == y;
      }
      if y == x {
        assert n[i] == y;
      }
    }
  }

  /** A page in hand becomes a page table. */
  lemma TabAdded(free: seq<nat>, sp: Space, rest: set<nat>, all: set<nat>, i: nat, x: nat)
    requires Conserved(free, sp, rest, all) && x in rest && i !in sp.tabs && i < NPDE
    ensures Conserved(free, AddTab(sp, i, x), rest - {x}, all)
  {
    ValuesAdded(sp.tabs, i, x);
    assert Owned(AddTab(sp, i, x)) == Owned(sp) + {x};
  }

  function AddPte(sp: Space, v: nat, p: Pte): (r: Space) {
    sp.(ptes := sp.ptes[v := p])
  }

  lemma UserAdded(ptes: map<nat, Pte>, v: nat, p: Pte)
    requires v !in ptes
    ensures UserPages(ptes[v := p]) == if v < KERNPN then UserPages(ptes) + {p.page} else UserPages(ptes)
  {
    var q := ptes[v := p];
    forall y ensures y in UserPages(q) <==> y in UserPages(ptes) || (v < KERNPN && y == p.page) {
      if y in UserPages(ptes) {
        var w :| w in ptes && w < KERNPN && ptes[w].page == y;
        assert q[w].page == y;
      }
      if v < KERNPN && y == p.page {
        assert q[v].page == y;
      }
    }
  }

  /** A page in hand becomes a user page; a kernel mapping takes nothing. */
  lemma PteAdded(free: seq<nat>, sp: Space, rest: set<nat>, all: set<nat>, v: nat, p: Pte)
    requires Conserved(free, sp, rest, all) && v !in sp.ptes && v / NPTE in sp.tabs && (v < KERNPN ==> p.page in rest)
    ensures Conserved(free, AddPte(sp, v, p), if v < KERNPN then rest - {p.page} else rest, all)
  {
    UserAdded(sp.ptes, v, p);
    var t := AddPte(sp, v, p);
    assert Owned(t) == if v < KERNPN then Owned(sp) + {p.page} else Owned(sp);
    forall a, b | a in t.ptes && b in t.ptes && a < KERNPN && b < KERNPN && t.ptes[a].page == t.ptes[b].page
      ensures a == b
    {
      assert a != v ==> t.ptes[a].page in UserPages(sp.ptes);
      assert b != v ==> t.ptes[b].page in UserPages(sp.ptes);
    }
  }

  function DropPte(sp: Space, v: nat): (r: Space) {
    sp.(ptes := sp.ptes - {v})
  }

  /** A user page is taken out of the space, into the caller's hand. */
  lemma PteDropped(free: seq<nat>, sp: Space, rest: set<nat>, all: set<nat>, v: nat)
    requires Conserved(free, sp, rest, all) && v in sp.ptes && v < KERNPN
    ensures Conserved(free, DropPte(sp, v), rest + {sp.ptes[v].page}, all)
    ensures sp.ptes[v].page in Owned(sp) && sp.ptes[v].page !in rest
  {
    var t := DropPte(sp, v);
    var x := sp.ptes[v].page;
    assert x in UserPages(sp.ptes);
    forall y ensures y in UserPages(t.ptes) <==> y in UserPages(sp.ptes) && y != x {
      if y in UserPages(sp.ptes) && y != x {
        var w :| w in sp.ptes && w < KERNPN && sp.ptes[w].page == y;
        assert t.ptes[w].page == y;
      }
    }
    assert Owned(t) == Owned(sp) - {x};
  }
}
