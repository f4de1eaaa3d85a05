/** The buffer cache as the code keeps it: buffers on a doubly linked ring around a head. */
module Bio {
  import opened Volume
  import opened BufferCache
  import opened Wrappers

  const HEAD := NBUF

  /** The k-th node of the ring, the head being both the first and the one after the last. */
  function Node(order: seq<nat>, k: nat): (b: nat)
    requires k <= |order| + 1
  {
    if k == 0 || k == |order| + 1 then HEAD else order[k - 1]
  }

  /** next and prev form one cycle through the head and the buffers of order. */
  ghost predicate Linked(next: seq<nat>, prev: seq<nat>, order: seq<nat>) {
    && |next| == |prev| == NBUF + 1
    && (forall k :: 0 <= k < |order| ==> order[k] < NBUF)
    && (forall j, k :: 0 <= j < k < |order| ==> order[j] != order[k])
    && (forall k :: 0 <= k <= |order| ==>
         next[Node(order, k)] == Node(order, k + 1) && prev[Node(order, k + 1)] == Node(order, k))
  }

  lemma PushFront(next: seq<nat>, prev: seq<nat>, order: seq<nat>, b: nat)
    requires Linked(next, prev, order) && b < NBUF && b !in order
    ensures next[HEAD] < |prev|
    ensures Linked(next[b := next[HEAD]][HEAD := b], prev[b := HEAD][next[HEAD] := b], [b] + order)
  {
    assert next[Node(order, 0)] == Node(order, 1);
    var n, p, o := next[b := next[HEAD]][HEAD := b], prev[b := HEAD][next[HEAD] := b], [b] + order;
    forall k | 0 <= k <= |o| ensures n[Node(o, k)] == Node(o, k + 1) && p[Node(o, k + 1)] == Node(o, k) {
      if k >= 1 {
        assert Node(o, k + 1) == Node(order, k);
        assert k >= 2 ==> Node(o, k) == Node(order, k - 1);
        assert k >= 2 ==> next[Node(order, k - 1)] == Node(order, k) && prev[Node(order, k)] == Node(order, k - 1);
      }
    }
  }

  function Without(order: seq<nat>, j: nat): (r: seq<nat>)
    requires j < |order|
  {
    order[..j] + order[j + 1..]
  }

  lemma Unlink(next: seq<nat>, prev: seq<nat>, order: seq<nat>, j: nat)
    requires Linked(next, prev, order) && j < |order|
    ensures next[order[j]] < |prev| && prev[order[j]] < |next|
    ensures Linked(next[prev[order[j]] := next[order[j]]], prev[next[order[j]] := prev[order[j]]], Without(order, j))
    ensures order[j] !in Without(order, j)
  {
    var b := order[j];
    assert next[Node(order, j + 1)] == Node(order, j + 2) && prev[Node(order, j + 1)] == Node(order, j);
    var n, p, o := next[prev[b] := next[b]], prev[next[b] := prev[b]], Without(order, j);
    forall k | 0 <= k <= |o| + 1 ensures Node(o, k) == if k <= j then Node(order, k) else Node(order, k + 1) {
    }
    forall k | 0 <= k <= |o| ensures n[Node(o, k)] == Node(o, k + 1) && p[Node(o, k + 1)] == Node(o, k) {
      var m := if k <= j then k else k + 1;
      assert next[Node(order, m)] == Node(order, m + 1) && prev[Node(order, m + 1)] == Node(order, m);
    }
  }

  /** The cache that binit makes is an initial cache of every run. */
  lemma BinitFresh(disk: seq<Block>)
    ensures var c := Cache(seq(NBUF, k => NBUF - 1 - k), seq(NBUF, _ => Buf(0, 0, 0, false, false, ZeroBlock())), disk);
      Fresh(State(c, map[], seq(NBUF, b => b), NBUF))
  {
    var order: seq<nat> := seq(NBUF, k => NBUF - 1 - k);
    forall b: nat | b < NBUF ensures b in order {
      assert order[NBUF - 1 - b] == b;
    }
  }

  class Bcache {
    const next: array<nat>
    const prev: array<nat>
    const bufs: array<Buf>
    var disk: seq<Block>
    ghost var order: seq<nat>

    ghost predicate Valid()
      reads this, next, prev, bufs
    {
      && next != prev && bufs.Length == NBUF
      && Linked(next[..], prev[..], order) && Permutes(order, NBUF)
    }

    ghost function Abs(): (c: Cache)
      reads this, bufs
    {
      Cache(order, bufs[..], disk)
    }

    /** binit, on buffers that are all zero. */
    constructor (disk: seq<Block>)
      ensures Valid() && fresh(next) && fresh(prev) && fresh(bufs)
      ensures this.disk == disk && order == seq(NBUF, k => NBUF - 1 - k)
      ensures forall b :: 0 <= b < NBUF ==> bufs[b] == Buf(0, 0, 0, false, false, ZeroBlock())
    {
      next := new nat[NBUF + 1](_ => HEAD);
      prev := new nat[NBUF + 1](_ => HEAD);
      bufs := new Buf[NBUF](_ => Buf(0, 0, 0, false, false, ZeroBlock()));
      this.disk := disk;
      order := [];
      new;
      var b := 0;
      while b < NBUF
        invariant 0 <= b <= NBUF
        invariant Linked(next[..], prev[..], order) && order == seq(b, k => b - 1 - k)
        invariant this.disk == disk && forall a :: 0 <= a < NBUF ==> bufs[a] == Buf(0, 0, 0, false, false, ZeroBlock())
      {
        AddFront(b);
        b := b + 1;
      }
      forall a: nat | a < NBUF ensures a in order {
        assert order[NBUF - 1 - a] == a;
      }
    }

    /** Put buffer b right after the head. */
    method AddFront(b: nat)
      requires next != prev && Linked(next[..], prev[..], order) && b < NBUF && b !in order
      modifies this`order, next, prev
      ensures Linked(next[..], prev[..], order) && order == [b] + old(order)
    {
      PushFront(next[..], prev[..], order, b);
      next[b] := next[HEAD];
      prev[b] := HEAD;
      prev[next[HEAD]] := b;
      next[HEAD] := b;
      order := [b] + order;
      assert next[..] == old(next[..])[b := old(next[HEAD])][HEAD := b];
      assert prev[..] == old(prev[..])[b := HEAD][old(next[HEAD]) := b];
    }

    /** The first loop of bget: look for the block from the most recently used buffer on. */
    method Find(dev: nat, blockno: nat) returns (r: Option<nat>)
      requires Valid()
      ensures r == FindFrom(Abs(), dev, blockno, 0)
      ensures r.Some? ==> r.value < NBUF && bufs[r.value].dev == dev && bufs[r.value].blockno == blockno
      ensures r.None? ==> forall b :: 0 <= b < NBUF ==> bufs[b].dev != dev || bufs[b].blockno != blockno
    {
      FindIs(Abs(), dev, blockno, 0);
      if FindFrom(Abs(), dev, blockno, 0).None? {
        NotCached(Abs(), dev, blockno);
      }
      var b := next[HEAD];
      ghost var k := 0;
      assert next[..][Node(order, 0)] == Node(order, 1);
      while b != HEAD
        invariant k <= NBUF && b == Node(order, k + 1)
        invariant FindFrom(Abs(), dev, blockno, 0) == FindFrom(Abs(), dev, blockno, k)
        decreases NBUF - k
      {
        if bufs[b].dev == dev && bufs[b].blockno == blockno {
          return Some(b);
        }
        assert next[..][Node(order, k + 1)] == Node(order, k + 2);
        b := next[b];
        k := k + 1;
      }
      r := None;
    }

    /** The second loop of bget: look for an idle buffer from the least recently used one on. */
    method Victim() returns (r: Option<nat>)
      requires Valid()
      ensures r == VictimUpTo(Abs(), NBUF)
      ensures r.Some? ==> r.value < NBUF && LastIdle(Abs(), NBUF, r.value)
      ensures r.None? ==> forall b :: 0 <= b < NBUF ==> bufs[b].refcnt > 0 || bufs[b].dirty
    {
      hide LastIdle;
      VictimIs(Abs(), NBUF);
      VictimLastIdle(Abs(), NBUF);
      if VictimUpTo(Abs(), NBUF).None? {
        NoVictim(Abs());
      }
      var b := prev[HEAD];
      ghost var k: nat := NBUF;
      assert prev[..][Node(order, NBUF + 1)] == Node(order, NBUF);
      while b != HEAD
        invariant k <= NBUF && b == Node(order, k)
        invariant VictimUpTo(Abs(), NBUF) == VictimUpTo(Abs(), k)
        decreases k
      {
        if bufs[b].refcnt == 0 && !bufs[b].dirty {
          return Some(b);
        }
        assert prev[..][Node(order, k)] == Node(order, k - 1);
        b := prev[b];
        k := k - 1;
      }
      r := None;
    }

    /** The locked part of bget; None is the panic "no buffers". */
    method Bget(dev: nat, blockno: nat) returns (r: Option<nat>)
      requires Valid()
      modifies bufs
      ensures Valid()
      ensures match Get(old(Abs()), dev, blockno)
              case Some(g) => r == Some(g.1) && Abs() == g.0
              case None => r == None && Abs() == old(Abs())
      ensures r.Some? ==>
        && r.value < NBUF
        && var was := old(bufs[r.value]);
        && (if was.dev == dev && was.blockno == blockno
            then bufs[..] == old(bufs[..])[r.value := was.(refcnt := was.refcnt + 1)]
            else LastIdle(old(Abs()), NBUF, r.value)
                 && (forall b :: 0 <= b < NBUF ==> old(bufs[b]).dev != dev || old(bufs[b]).blockno != blockno)
                 && bufs[..] == old(bufs[..])[r.value := Buf(dev, blockno, 1, false, false, was.data)])
      ensures r.None? ==>
        && bufs[..] == old(bufs[..])
        && forall b :: 0 <= b < NBUF ==> bufs[b].refcnt > 0 || bufs[b].dirty
    {
      hide LastIdle;
      r := Find(dev, blockno);
      FindIs(Abs(), dev, blockno, 0);
      if r.Some? {
        bufs[r.value] := bufs[r.value].(refcnt := bufs[r.value].refcnt + 1);
        return;
      }
      r := Victim();
      VictimIs(Abs(), NBUF);
      if r.Some? {
        bufs[r.value] := bufs[r.value].(dev := dev, blockno := blockno, valid := false, dirty := false, refcnt := 1);
      }
    }

    /** iderw of the memory disk; false is one of its panics. */
    method Iderw(b: nat) returns (ok: bool)
      requires Valid() && b < NBUF
      modifies this`disk, bufs
      ensures Valid()
      ensures ok <==> old((!bufs[b].valid || bufs[b].dirty) && OnDisk(Abs(), b))
      ensures Abs() == if ok then Sync(old(Abs()), b) else old(Abs())
      ensures ok ==>
        && var was := old(bufs[b]);
        && was.dev == 1 && was.blockno < |disk|
        && (if was.dirty
            then disk == old(disk)[was.blockno := was.data]
                 && bufs[..] == old(bufs[..])[b := was.(dirty := false, valid := true)]
            else disk == old(disk) && bufs[..] == old(bufs[..])[b := was.(data := disk[was.blockno], valid := true)])
    {
      if bufs[b].valid && !bufs[b].dirty {
        return false;
      }
      if bufs[b].dev != 1 || bufs[b].blockno >= |disk| {
        return false;
      }
      if bufs[b].dirty {
        bufs[b] := bufs[b].(dirty := false);
        disk := disk[bufs[b].blockno := bufs[b].data];
      } else {
        bufs[b] := bufs[b].(data := disk[bufs[b].blockno]);
      }
      bufs[b] := bufs[b].(valid := true);
      ok := true;
    }

    /** The rest of bread, for the holder of the buffer's lock. */
    method Fill(b: nat) returns (ok: bool)
      requires Valid() && b < NBUF
      modifies this`disk, bufs
      ensures Valid() && (ok <==> old(bufs[b].valid || OnDisk(Abs(), b)))
      ensures Abs() == if ok then Load(old(Abs()), b) else old(Abs())
      ensures ok ==> bufs[b].valid && (old(bufs[b].valid) ==> bufs[..] == old(bufs[..]) && disk == old(disk))
      ensures ok && !old(bufs[b].valid) && !old(bufs[b].dirty) ==>
        disk == old(disk) && bufs[b].blockno < |disk| && bufs[b].data == disk[bufs[b].blockno]
    {
      ok := true;
      if !bufs[b].valid {
        ok := Iderw(b);
      }
    }

    /** bwrite, for the holder of the buffer's lock. */
    method Bwrite(b: nat) returns (ok: bool)
      requires Valid() && b < NBUF
      modifies this`disk, bufs
      ensures Valid() && (ok <==> old(OnDisk(Abs(), b)))
      ensures ok ==> Abs() == Sync(Mark(old(Abs()), b), b)
      ensures ok ==>
        && var was := old(bufs[b]);
        && was.dev == 1 && was.blockno < |disk| && disk == old(disk)[was.blockno := was.data]
        && bufs[..] == old(bufs[..])[b := was.(dirty := false, valid := true)]
    {
      bufs[b] := bufs[b].(dirty := true);
      ok := Iderw(b);
    }

    /** The locked part of brelse. */
    method Brelse(b: nat)
      requires Valid() && b < NBUF && bufs[b].refcnt > 0 && b in order
      modifies this`order, next, prev, bufs
      ensures Valid() && Abs() == Drop(old(Abs()), b)
      ensures bufs[..] == old(bufs[..])[b := old(bufs[b]).(refcnt := old(bufs[b]).refcnt - 1)]
      ensures old(bufs[b]).refcnt > 1 ==> order == old(order)
      ensures old(bufs[b]).refcnt == 1 ==>
        exists k :: 0 <= k < |old(order)| && old(order)[k] == b
                    && order == [b] + old(order)[..k] + old(order)[k + 1..]
    {
      bufs[b] := bufs[b].(refcnt := bufs[b].refcnt - 1);
      if bufs[b].refcnt == 0 {
        ghost var j := PlaceOf(order, b);
        ToFrontPermutes(order, NBUF, j);
        Unlink(next[..], prev[..], order, j);
        ghost var n0, p0 := next[..], prev[..];
        prev[next[b]] := prev[b];
        next[prev[b]] := next[b];
        assert next[..] == n0[p0[b] := n0[b]];
        assert prev[..] == p0[n0[b] := p0[b]];
        order := Without(order, j);
        AddFront(b);
        assert order == ToFront(old(order), j);
      }
    }
  }
}
