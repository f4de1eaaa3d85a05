/**
 The buffer cache as a value, and runs in which any number of callers get, read, change, log,
 write and release buffers: the cache behaves as the plain disk it stands for.
 */
module BufferCache {
  import opened Volume
  import opened Wrappers

  const NBUF := 30

  datatype Buf = Buf(dev: nat, blockno: nat, refcnt: nat, valid: bool, dirty: bool, data: Block) {
    predicate Is(d: nat, n: nat) {
      dev == d && blockno == n
    }

    predicate Idle() {
      refcnt == 0 && !dirty
    }
  }

  /** The buffers, their order from most to least recently used, and the disk. */
  datatype Cache = Cache(order: seq<nat>, bufs: seq<Buf>, disk: seq<Block>)

  ghost predicate Permutes(order: seq<nat>, n: nat) {
    && |order| == n
    && (forall k :: 0 <= k < n ==> order[k] < n)
    && (forall j, k :: 0 <= j < k < n ==> order[j] != order[k])
    && (forall b: nat :: b < n ==> b in order)
  }

  ghost predicate Shaped(c: Cache) {
    |c.bufs| == NBUF && Permutes(c.order, NBUF)
  }

  // ---------------------------------------------------------------- the operations

  /** The first buffer in order from place k that caches block n of device d. */
  function FindFrom(c: Cache, d: nat, n: nat, k: nat): (r: Option<nat>)
    requires k <= |c.order| && forall j :: 0 <= j < |c.order| ==> c.order[j] < |c.bufs|
    decreases |c.order| - k
  {
    if k == |c.order| then None
    else if c.bufs[c.order[k]].Is(d, n) then Some(c.order[k])
    else FindFrom(c, d, n, k + 1)
  }

  /** The last idle buffer among the first k in order. */
  function VictimUpTo(c: Cache, k: nat): (r: Option<nat>)
    requires k <= |c.order| && forall j :: 0 <= j < |c.order| ==> c.order[j] < |c.bufs|
  {
    if k == 0 then None
    else if c.bufs[c.order[k - 1]].Idle() then Some(c.order[k - 1])
    else VictimUpTo(c, k - 1)
  }

  function SetBuf(c: Cache, b: nat, buf: Buf): (r: Cache)
    requires b < |c.bufs|
  {
    c.(bufs := c.bufs[b := buf])
  }

  function Hit(c: Cache, b: nat): (r: Cache)
    requires b < |c.bufs|
  {
    SetBuf(c, b, c.bufs[b].(refcnt := c.bufs[b].refcnt + 1))
  }

  function Recycle(c: Cache, b: nat, d: nat, n: nat): (r: Cache)
    requires b < |c.bufs|
  {
    SetBuf(c, b, c.bufs[b].(dev := d, blockno := n, valid := false, dirty := false, refcnt := 1))
  }

  /** bget: the buffer for a block, and the cache after; None is the panic "no buffers". */
  function Get(c: Cache, d: nat, n: nat): (r: Option<(Cache, nat)>)
    requires forall j :: 0 <= j < |c.order| ==> c.order[j] < |c.bufs|
  {
    match FindFrom(c, d, n, 0)
    case Some(b) => (FindIs(c, d, n, 0); Some((Hit(c, b), b)))
    case None =>
      match VictimUpTo(c, |c.order|)
      case Some(b) => (VictimIs(c, |c.order|); Some((Recycle(c, b, d, n), b)))
      case None => None
  }

  /** iderw can serve the buffer. */
  predicate OnDisk(c: Cache, b: nat)
    requires b < |c.bufs|
  {
    c.bufs[b].dev == 1 && c.bufs[b].blockno < |c.disk|
  }

  /** iderw: write a dirty buffer, else read. */
  function Sync(c: Cache, b: nat): (r: Cache)
    requires b < |c.bufs| && OnDisk(c, b)
  {
    if c.bufs[b].dirty then
      SetBuf(c, b, c.bufs[b].(dirty := false, valid := true)).(disk := c.disk[c.bufs[b].blockno := c.bufs[b].data])
    else
      SetBuf(c, b, c.bufs[b].(data := c.disk[c.bufs[b].blockno], valid := true))
  }

  /** The rest of bread: make the buffer valid. */
  function Load(c: Cache, b: nat): (r: Cache)
    requires b < |c.bufs| && (c.bufs[b].valid || OnDisk(c, b))
  {
    if c.bufs[b].valid then c else Sync(c, b)
  }

  function Mark(c: Cache, b: nat): (r: Cache)
    requires b < |c.bufs|
  {
    SetBuf(c, b, c.bufs[b].(dirty := true))
  }

  /** The place of b in an order. */
  function PlaceOf(order: seq<nat>, b: nat): (k: nat)
    requires b in order
    ensures k < |order| && order[k] == b
  {
    if order[0] == b then 0 else 1 + PlaceOf(order[1..], b)
  }

  function ToFront(order: seq<nat>, k: nat): (r: seq<nat>)
    requires k < |order|
  {
    [order[k]] + order[..k] + order[k + 1..]
  }

  /** brelse: drop a reference; the last one moves the buffer to the front. */
  function Drop(c: Cache, b: nat): (r: Cache)
    requires b < |c.bufs| && c.bufs[b].refcnt > 0 && b in c.order
  {
    var d := SetBuf(c, b, c.bufs[b].(refcnt := c.bufs[b].refcnt - 1));
    if d.bufs[b].refcnt == 0 then d.(order := ToFront(c.order, PlaceOf(c.order, b))) else d
  }

  lemma {:induction false} FindIs(c: Cache, d: nat, n: nat, k: nat)
    requires k <= |c.order| && forall j :: 0 <= j < |c.order| ==> c.order[j] < |c.bufs|
    ensures match FindFrom(c, d, n, k)
            case Some(b) => b < |c.bufs| && c.bufs[b].Is(d, n) && b in c.order
            case None => forall j :: k <= j < |c.order| ==> !c.bufs[c.order[j]].Is(d, n)
    decreases |c.order| - k
  {
    if k < |c.order| && !c.bufs[c.order[k]].Is(d, n) {
      FindIs(c, d, n, k + 1);
    }
  }

  /** Buffer b is idle, and of the first k in order none behind it is. */
  ghost predicate LastIdle(c: Cache, k: nat, b: nat) {
    && k <= |c.order| && (forall j :: 0 <= j < |c.order| ==> c.order[j] < |c.bufs|)
    && exists j :: 0 <= j < k && c.order[j] == b && c.bufs[b].refcnt == 0 && !c.bufs[b].dirty
                   && forall i :: j < i < k ==> c.bufs[c.order[i]].refcnt > 0 || c.bufs[c.order[i]].dirty
  }

  lemma {:induction false} VictimLastIdle(c: Cache, k: nat)
    requires k <= |c.order| && forall j :: 0 <= j < |c.order| ==> c.order[j] < |c.bufs|
    ensures VictimUpTo(c, k).Some? ==> LastIdle(c, k, VictimUpTo(c, k).value)
  {
    if k > 0 && !c.bufs[c.order[k - 1]].Idle() {
      VictimLastIdle(c, k - 1);
    }
  }

  lemma NoVictim(c: Cache)
    requires Shaped(c) && VictimUpTo(c, NBUF).None?
    ensures forall b :: 0 <= b < NBUF ==> c.bufs[b].refcnt > 0 || c.bufs[b].dirty
  {
    VictimIs(c, NBUF);
    forall b | 0 <= b < NBUF ensures c.bufs[b].refcnt > 0 || c.bufs[b].dirty {
      assert b in c.order;
      var j :| 0 <= j < |c.order| && c.order[j] == b;
      assert !c.bufs[c.order[j]].Idle();
    }
  }

  lemma {:induction false} VictimIs(c: Cache, k: nat)
    requires k <= |c.order| && forall j :: 0 <= j < |c.order| ==> c.order[j] < |c.bufs|
    ensures match VictimUpTo(c, k)
            case Some(b) => b < |c.bufs| && c.bufs[b].Idle() && b in c.order
            case None => forall j :: 0 <= j < k ==> !c.bufs[c.order[j]].Idle()
  {
    if k > 0 && !c.bufs[c.order[k - 1]].Idle() {
      VictimIs(c, k - 1);
    }
  }

  lemma ToFrontPermutes(order: seq<nat>, n: nat, k: nat)
    requires Permutes(order, n) && k < n
    ensures Permutes(ToFront(order, k), n)
  {
    var r := ToFront(order, k);
    forall b: nat | b < n ensures b in r {
      assert b in order;
      var j :| 0 <= j < |order| && order[j] == b;
      assert j < k ==> r[j + 1] == b;
      assert j > k ==> r[j] == b;
    }
  }

  // ---------------------------------------------------------------- runs

  /** How far a caller has come with its buffer. */
  datatype Phase =
    | Waiting  // has a reference, waits for the sleep lock
    | Entered  // holds the lock
    | Ready    // bread has returned
    | Changed  // has changed the data, not yet logged or written it
    | Leaving  // has released the lock, still counted

  /** A reference to buffer b, got as block n of device d. */
  datatype Hold = Hold(b: nat, d: nat, n: nat, phase: Phase) {
    predicate Locks() {
      phase.Entered? || phase.Ready? || phase.Changed?
    }
  }

  /** The cache, the references handed out, and when each buffer was last moved to the front. */
  datatype State = State(c: Cache, holds: map<nat, Hold>, stamp: seq<nat>, clock: nat)

  datatype Event =
    | EvGet(h: nat, d: nat, n: nat)
    | EvLock(h: nat)
    | EvLoad(h: nat)
    | EvModify(h: nat, data: Block)
    | EvLogWrite(h: nat)
    | EvBwrite(h: nat)
    | EvUnlock(h: nat)
    | EvDrop(h: nat)

  /** Reference h is in phase p. */
  predicate At(s: State, h: nat, p: Phase) {
    h in s.holds && s.holds[h].phase == p && s.holds[h].b < |s.c.bufs|
  }

  function Move(s: State, h: nat, p: Phase): (t: State)
    requires h in s.holds
  {
    s.(holds := s.holds[h := s.holds[h].(phase := p)])
  }

  /** The event can happen, without a panic. */
  ghost predicate Enabled(s: State, e: Event)
    requires Shaped(s.c)
  {
    match e
    case EvGet(h, d, n) => h !in s.holds && Get(s.c, d, n).Some?
    case EvLock(h) =>
      At(s, h, Waiting) && forall g :: g in s.holds && s.holds[g].b == s.holds[h].b ==> !s.holds[g].Locks()
    case EvLoad(h) => At(s, h, Entered) && (s.c.bufs[s.holds[h].b].valid || OnDisk(s.c, s.holds[h].b))
    case EvModify(h, data) => At(s, h, Ready) || At(s, h, Changed)
    case EvLogWrite(h) => At(s, h, Ready) || At(s, h, Changed)
    case EvBwrite(h) => (At(s, h, Ready) || At(s, h, Changed)) && OnDisk(s.c, s.holds[h].b)
    case EvUnlock(h) => At(s, h, Ready)
    case EvDrop(h) => At(s, h, Leaving) && s.c.bufs[s.holds[h].b].refcnt > 0
  }

  function Do(s: State, e: Event): (t: State)
    requires Shaped(s.c) && |s.stamp| == NBUF && Enabled(s, e)
  {
    match e
    case EvGet(h, d, n) =>
      var g := Get(s.c, d, n).value;
      s.(c := g.0, holds := s.holds[h := Hold(g.1, d, n, Waiting)])
    case EvLock(h) => Move(s, h, Entered)
    case EvLoad(h) => Move(s, h, Ready).(c := Load(s.c, s.holds[h].b))
    case EvModify(h, data) =>
      var b := s.holds[h].b;
      Move(s, h, Changed).(c := SetBuf(s.c, b, s.c.bufs[b].(data := data)))
    case EvLogWrite(h) => Move(s, h, Ready).(c := Mark(s.c, s.holds[h].b))
    case EvBwrite(h) => Move(s, h, Ready).(c := Sync(Mark(s.c, s.holds[h].b), s.holds[h].b))
    case EvUnlock(h) => Move(s, h, Leaving)
    case EvDrop(h) =>
      var b := s.holds[h].b;
      var t := s.(c := Drop(s.c, b), holds := s.holds - {h});
      if s.c.bufs[b].refcnt == 1 then t.(stamp := s.stamp[b := s.clock], clock := s.clock + 1) else t
  }

  /** The references to buffer b. */
  function Refs(holds: map<nat, Hold>, b: nat): (r: set<nat>) {
    set h | h in holds && holds[h].b == b
  }

  ghost predicate RefInv(s: State)
    requires Shaped(s.c)
  {
    && (forall b :: 0 <= b < NBUF ==> s.c.bufs[b].refcnt == |Refs(s.holds, b)|)
    && (forall h :: h in s.holds ==>
          s.holds[h].b < NBUF && s.c.bufs[s.holds[h].b].Is(s.holds[h].d, s.holds[h].n))
    && (forall g, h :: g in s.holds && h in s.holds && s.holds[g].b == s.holds[h].b ==>
          s.holds[g].Locks() && s.holds[h].Locks() ==> g == h)
  }

  /** At most one buffer caches a block of a device other than 0. */
  ghost predicate OneEach(c: Cache)
    requires Shaped(c)
  {
    forall a, b :: 0 <= a < NBUF && 0 <= b < NBUF && c.bufs[a].Is(c.bufs[b].dev, c.bufs[b].blockno) ==>
      a == b || c.bufs[a].dev == 0
  }

  ghost predicate BeingChanged(s: State, b: nat) {
    exists h :: h in s.holds && s.holds[h].b == b && s.holds[h].phase == Changed
  }

  /** What valid and dirty mean: a valid clean buffer that nobody is changing equals the disk. */
  ghost predicate DataInv(s: State)
    requires Shaped(s.c)
  {
    && (forall b :: 0 <= b < NBUF && s.c.bufs[b].dirty ==> s.c.bufs[b].valid)
    && (forall b :: 0 <= b < NBUF && s.c.bufs[b].valid ==> OnDisk(s.c, b))
    && (forall b :: 0 <= b < NBUF && s.c.bufs[b].valid && !s.c.bufs[b].dirty && !BeingChanged(s, b) ==>
          s.c.bufs[b].data == s.c.disk[s.c.bufs[b].blockno])
    && (forall h :: h in s.holds && (s.holds[h].phase == Ready || s.holds[h].phase == Changed) ==>
          s.holds[h].b < NBUF && s.c.bufs[s.holds[h].b].valid)
  }

  /** The order is that of the last moves to the front. */
  ghost predicate LruInv(s: State) {
    && |s.stamp| == NBUF && Shaped(s.c)
    && (forall b :: 0 <= b < NBUF ==> s.stamp[b] < s.clock)
    && (forall j, k :: 0 <= j < k < NBUF ==> s.stamp[s.c.order[j]] > s.stamp[s.c.order[k]])
  }

  ghost predicate Inv(s: State) {
    Shaped(s.c) && |s.stamp| == NBUF && RefInv(s) && OneEach(s.c) && DataInv(s) && LruInv(s)
  }

  // ---------------------------------------------------------------- keeping the invariant

  lemma RefsAdded(holds: map<nat, Hold>, h: nat, x: Hold, b: nat)
    requires h !in holds
    ensures |Refs(holds[h := x], b)| == |Refs(holds, b)| + (if x.b == b then 1 else 0)
  {
    assert Refs(holds[h := x], b) == if x.b == b then Refs(holds, b) + {h} else Refs(holds, b);
  }

  lemma RefsMoved(holds: map<nat, Hold>, h: nat, p: Phase, b: nat)
    requires h in holds
    ensures Refs(holds[h := holds[h].(phase := p)], b) == Refs(holds, b)
  {
  }

  lemma RefsDropped(holds: map<nat, Hold>, h: nat, b: nat)
    requires h in holds
    ensures |Refs(holds - {h}, b)| == |Refs(holds, b)| - (if holds[h].b == b then 1 else 0)
  {
    assert Refs(holds - {h}, b) == Refs(holds, b) - {h};
  }

  /** An idle buffer has no references. */
  lemma NoRefs(s: State, b: nat)
    requires Shaped(s.c) && RefInv(s) && b < NBUF && s.c.bufs[b].refcnt == 0
    ensures forall h :: h in s.holds ==> s.holds[h].b != b
  {
    forall h | h in s.holds ensures s.holds[h].b != b {
      assert s.holds[h].b == b ==> h in Refs(s.holds, b);
    }
  }

  lemma NotCached(c: Cache, d: nat, n: nat)
    requires Shaped(c) && FindFrom(c, d, n, 0).None?
    ensures forall b :: 0 <= b < NBUF ==> !c.bufs[b].Is(d, n)
  {
    FindIs(c, d, n, 0);
    forall b | 0 <= b < NBUF ensures !c.bufs[b].Is(d, n) {
      assert b in c.order;
      var j :| 0 <= j < |c.order| && c.order[j] == b;
    }
  }

  /** The same buffers under the same names with the same counts, in the same order. */
  ghost predicate SameIds(c: Cache, d: Cache) {
    && d.order == c.order && |d.bufs| == |c.bufs| && |d.disk| == |c.disk|
    && forall b :: 0 <= b < |c.bufs| ==>
         d.bufs[b].Is(c.bufs[b].dev, c.bufs[b].blockno) && d.bufs[b].refcnt == c.bufs[b].refcnt
  }

  /** A step of a caller that has its buffer keeps references, uniqueness and order. */
  lemma MoveKeeps(s: State, t: State, h: nat, p: Phase)
    requires Inv(s) && h in s.holds && SameIds(s.c, t.c)
    requires t.holds == s.holds[h := s.holds[h].(phase := p)] && t.stamp == s.stamp && t.clock == s.clock
    requires s.holds[h].(phase := p).Locks() && !s.holds[h].Locks() ==>
      forall g :: g in s.holds && s.holds[g].b == s.holds[h].b ==> !s.holds[g].Locks()
    ensures Shaped(t.c) && RefInv(t) && OneEach(t.c) && LruInv(t)
  {
    hide DataInv;
    MoveKeepsRefs(s, t, h, p);
    hide RefInv;
    forall a, b | 0 <= a < NBUF && 0 <= b < NBUF && t.c.bufs[a].Is(t.c.bufs[b].dev, t.c.bufs[b].blockno)
      ensures a == b || t.c.bufs[a].dev == 0
    {
      assert s.c.bufs[a].Is(s.c.bufs[b].dev, s.c.bufs[b].blockno);
    }
  }

  lemma MoveKeepsRefs(s: State, t: State, h: nat, p: Phase)
    requires Shaped(s.c) && RefInv(s) && h in s.holds && SameIds(s.c, t.c)
    requires t.holds == s.holds[h := s.holds[h].(phase := p)]
    requires s.holds[h].(phase := p).Locks() && !s.holds[h].Locks() ==>
      forall g :: g in s.holds && s.holds[g].b == s.holds[h].b ==> !s.holds[g].Locks()
    ensures Shaped(t.c) && RefInv(t)
  {
    forall b | 0 <= b < NBUF ensures t.c.bufs[b].refcnt == |Refs(t.holds, b)| {
      RefsMoved(s.holds, h, p, b);
    }
  }

  /** The events of a caller that has its buffer and keeps its reference. */
  predicate OfHolder(e: Event) {
    e.EvLock? || e.EvLoad? || e.EvModify? || e.EvLogWrite? || e.EvBwrite? || e.EvUnlock?
  }

  function After(e: Event): (p: Phase)
    requires OfHolder(e)
  {
    match e
    case EvLock(h) => Entered
    case EvModify(h, data) => Changed
    case EvUnlock(h) => Leaving
    case _ => Ready
  }

  /** The buffer as the event leaves it. */
  function BufAfter(s: State, e: Event): (buf: Buf)
    requires Shaped(s.c) && OfHolder(e) && Enabled(s, e)
  {
    var buf := s.c.bufs[s.holds[e.h].b];
    match e
    case EvLoad(h) => if buf.valid then buf else Sync(s.c, s.holds[h].b).bufs[s.holds[h].b]
    case EvModify(h, data) => buf.(data := data)
    case EvLogWrite(h) => buf.(dirty := true)
    case EvBwrite(h) => buf.(dirty := false, valid := true)
    case _ => buf
  }

  lemma InvalidClean(s: State, b: nat)
    requires Inv(s) && b < NBUF && !s.c.bufs[b].valid
    ensures !s.c.bufs[b].dirty
  {
  }

  /** An event of a holder changes one buffer, one phase, and for bwrite one block. */
  lemma HolderShape(s: State, e: Event)
    requires Inv(s) && OfHolder(e) && Enabled(s, e)
    ensures var t := Do(s, e);
      var b := s.holds[e.h].b;
      && SameIds(s.c, t.c) && t.c.bufs == s.c.bufs[b := BufAfter(s, e)]
      && t.holds == s.holds[e.h := s.holds[e.h].(phase := After(e))] && t.stamp == s.stamp && t.clock == s.clock
      && t.c.disk == (if e.EvBwrite? then s.c.disk[s.c.bufs[b].blockno := s.c.bufs[b].data] else s.c.disk)
  {
    hide RefInv, OneEach, DataInv, LruInv, Permutes;
    if !s.c.bufs[s.holds[e.h].b].valid {
      InvalidClean(s, s.holds[e.h].b);
    }
  }

  lemma OthersChanged(s: State, t: State, h: nat, p: Phase)
    requires h in s.holds && t.holds == s.holds[h := s.holds[h].(phase := p)]
    ensures forall b: nat :: b != s.holds[h].b ==> (BeingChanged(t, b) <==> BeingChanged(s, b))
    ensures p == Changed ==> BeingChanged(t, s.holds[h].b)
  {
    forall b: nat | b != s.holds[h].b ensures BeingChanged(t, b) <==> BeingChanged(s, b) {
      if BeingChanged(s, b) {
        var g :| g in s.holds && s.holds[g].b == b && s.holds[g].phase == Changed;
        assert t.holds[g] == s.holds[g];
      }
    }
    assert p == Changed ==> t.holds[h].phase == Changed;
  }

  /** Nobody but the lock holder can be changing its buffer. */
  lemma OnlyHolderChanges(s: State, h: nat)
    requires Shaped(s.c) && RefInv(s) && h in s.holds && s.holds[h].Locks() && s.holds[h].phase != Changed
    ensures !BeingChanged(s, s.holds[h].b)
  {
  }

  lemma HolderKeepsData(s: State, e: Event)
    requires Inv(s) && OfHolder(e) && Enabled(s, e)
    ensures DataInv(Do(s, e))
  {
    hide LruInv, Permutes, Do, BufAfter, BeingChanged;
    var t := Do(s, e);
    var b := s.holds[e.h].b;
    HolderShape(s, e);
    OthersChanged(s, t, e.h, After(e));
    HolderBuf(s, e);
    forall a | 0 <= a < NBUF && a != b && t.c.bufs[a].valid && !t.c.bufs[a].dirty && !BeingChanged(t, a)
      ensures t.c.bufs[a].data == t.c.disk[t.c.bufs[a].blockno]
    {
      assert t.c.bufs[a] == s.c.bufs[a];
      if e.EvBwrite? {
        assert OnDisk(s.c, a) && OnDisk(s.c, b);
        assert !s.c.bufs[a].Is(s.c.bufs[b].dev, s.c.bufs[b].blockno);
      }
    }
  }

  /** The holder's own buffer. */
  lemma HolderBuf(s: State, e: Event)
    requires Inv(s) && OfHolder(e) && Enabled(s, e)
    ensures var t := Do(s, e);
      var b := s.holds[e.h].b;
      && b < |t.c.bufs| && (t.c.bufs[b].dirty ==> t.c.bufs[b].valid) && (t.c.bufs[b].valid ==> OnDisk(t.c, b))
      && (t.c.bufs[b].valid && !t.c.bufs[b].dirty && !BeingChanged(t, b) ==>
            t.c.bufs[b].data == t.c.disk[t.c.bufs[b].blockno])
      && (After(e) == Ready || After(e) == Changed ==> t.c.bufs[b].valid)
      && (s.c.bufs[b].valid ==> t.c.bufs[b].valid)
  {
    hide LruInv, Permutes, OneEach;
    var t := Do(s, e);
    var b := s.holds[e.h].b;
    HolderShape(s, e);
    OthersChanged(s, t, e.h, After(e));
    if e.EvLock? {
      LockUnchanged(s, e.h);
    } else if s.holds[e.h].phase != Changed {
      OnlyHolderChanges(s, e.h);
    }
  }

  lemma LockUnchanged(s: State, h: nat)
    requires Shaped(s.c) && Enabled(s, EvLock(h))
    ensures !BeingChanged(s, s.holds[h].b)
  {
  }

  lemma HolderKeeps(s: State, e: Event)
    requires Inv(s) && OfHolder(e) && Enabled(s, e)
    ensures Inv(Do(s, e))
  {
    hide RefInv, OneEach, DataInv, LruInv, Permutes;
    HolderShape(s, e);
    HolderKeepsData(s, e);
    MoveKeeps(s, Do(s, e), e.h, After(e));
  }

  /** What bget does: a hit counts one more reference, a miss takes an idle buffer over. */
  lemma GetCases(s: State, h: nat, d: nat, n: nat)
    requires Inv(s) && Enabled(s, EvGet(h, d, n))
    ensures var t := Do(s, EvGet(h, d, n));
      var b := Get(s.c, d, n).value.1;
      && b < NBUF && t.holds == s.holds[h := Hold(b, d, n, Waiting)] && t.stamp == s.stamp && t.clock == s.clock
      && t.c.order == s.c.order && t.c.disk == s.c.disk
      && (|| (s.c.bufs[b].Is(d, n) && t.c.bufs == s.c.bufs[b := s.c.bufs[b].(refcnt := s.c.bufs[b].refcnt + 1)])
          || (s.c.bufs[b].Idle() && (forall a :: 0 <= a < NBUF ==> !s.c.bufs[a].Is(d, n))
              && t.c.bufs == s.c.bufs[b := Buf(d, n, 1, false, false, s.c.bufs[b].data)]))
  {
    hide RefInv, DataInv, LruInv, OneEach;
    FindIs(s.c, d, n, 0);
    if FindFrom(s.c, d, n, 0).None? {
      VictimIs(s.c, |s.c.order|);
      NotCached(s.c, d, n);
    }
  }

  lemma GetKeepsRefs(s: State, h: nat, d: nat, n: nat)
    requires Inv(s) && Enabled(s, EvGet(h, d, n))
    ensures Shaped(Do(s, EvGet(h, d, n)).c) && RefInv(Do(s, EvGet(h, d, n)))
  {
    hide DataInv, LruInv, Do, Get, Refs;
    var t := Do(s, EvGet(h, d, n));
    GetCases(s, h, d, n);
    var g := Get(s.c, d, n).value.1;
    if s.c.bufs[g].refcnt == 0 {
      NoRefs(s, g);
    }
    forall b | 0 <= b < NBUF ensures t.c.bufs[b].refcnt == |Refs(t.holds, b)| {
      RefsAdded(s.holds, h, Hold(g, d, n, Waiting), b);
    }
  }

  lemma GetKeeps(s: State, h: nat, d: nat, n: nat)
    requires Inv(s) && Enabled(s, EvGet(h, d, n))
    ensures Inv(Do(s, EvGet(h, d, n)))
  {
    hide Do, Get, Refs;
    GetKeepsRefs(s, h, d, n);
    hide RefInv;
    var t := Do(s, EvGet(h, d, n));
    GetCases(s, h, d, n);
    GetKeepsData(s, h, d, n);
    hide DataInv;
    var g := Get(s.c, d, n).value.1;
    forall a, b | 0 <= a < NBUF && 0 <= b < NBUF && t.c.bufs[a].Is(t.c.bufs[b].dev, t.c.bufs[b].blockno)
      ensures a == b || t.c.bufs[a].dev == 0
    {
      assert s.c.bufs[a].Is(s.c.bufs[b].dev, s.c.bufs[b].blockno) || a == g || b == g;
    }
  }

  lemma GetKeepsData(s: State, h: nat, d: nat, n: nat)
    requires Inv(s) && Enabled(s, EvGet(h, d, n)) && Shaped(Do(s, EvGet(h, d, n)).c)
    ensures DataInv(Do(s, EvGet(h, d, n)))
  {
    hide Do, Get, Refs, OneEach, LruInv;
    var t := Do(s, EvGet(h, d, n));
    GetCases(s, h, d, n);
    var g := Get(s.c, d, n).value.1;
    if s.c.bufs[g].refcnt == 0 {
      NoRefs(s, g);
    }
    forall b: nat | BeingChanged(s, b) ensures BeingChanged(t, b) {
      var k :| k in s.holds && s.holds[k].b == b && s.holds[k].phase == Changed;
      assert t.holds[k] == s.holds[k];
    }
  }

  lemma DropKeepsRefs(s: State, h: nat)
    requires Inv(s) && Enabled(s, EvDrop(h))
    ensures Shaped(Do(s, EvDrop(h)).c) && RefInv(Do(s, EvDrop(h)))
  {
    hide DataInv, LruInv, OneEach, Refs, PlaceOf, ToFront;
    var t := Do(s, EvDrop(h));
    var b := s.holds[h].b;
    ToFrontPermutes(s.c.order, NBUF, PlaceOf(s.c.order, b));
    forall a | 0 <= a < NBUF ensures t.c.bufs[a].refcnt == |Refs(t.holds, a)| {
      RefsDropped(s.holds, h, a);
    }
  }

  lemma DropKeeps(s: State, h: nat)
    requires Inv(s) && Enabled(s, EvDrop(h))
    ensures Inv(Do(s, EvDrop(h)))
  {
    hide Refs, PlaceOf, ToFront, DataInv;
    DropKeepsRefs(s, h);
    hide RefInv;
    var t := Do(s, EvDrop(h));
    DropKeepsLru(s, h);
    hide LruInv;
    SameIdsUnique(s.c, t.c);
    DropKeepsData(s, h);
  }

  lemma DropKeepsData(s: State, h: nat)
    requires Inv(s) && Enabled(s, EvDrop(h)) && Shaped(Do(s, EvDrop(h)).c)
    ensures DataInv(Do(s, EvDrop(h)))
  {
    hide Refs, PlaceOf, ToFront, LruInv, OneEach, Permutes;
    var t := Do(s, EvDrop(h));
    forall b: nat | BeingChanged(s, b) ensures BeingChanged(t, b) {
      var k :| k in s.holds && s.holds[k].b == b && s.holds[k].phase == Changed;
      assert k != h && t.holds[k] == s.holds[k];
    }
  }

  lemma SameIdsUnique(c: Cache, d: Cache)
    requires Shaped(c) && Shaped(d) && OneEach(c)
    requires forall b :: 0 <= b < NBUF ==> d.bufs[b].Is(c.bufs[b].dev, c.bufs[b].blockno)
    ensures OneEach(d)
  {
    forall a, b | 0 <= a < NBUF && 0 <= b < NBUF && d.bufs[a].Is(d.bufs[b].dev, d.bufs[b].blockno)
      ensures a == b || d.bufs[a].dev == 0
    {
      assert c.bufs[a].Is(c.bufs[b].dev, c.bufs[b].blockno);
    }
  }

  lemma DropKeepsLru(s: State, h: nat)
    requires Inv(s) && Enabled(s, EvDrop(h)) && Shaped(Do(s, EvDrop(h)).c)
    ensures LruInv(Do(s, EvDrop(h)))
  {
    hide Refs, PlaceOf, DataInv, RefInv, OneEach;
    var t := Do(s, EvDrop(h));
    var b := s.holds[h].b;
    var k := PlaceOf(s.c.order, b);
    if s.c.bufs[b].refcnt == 1 {
      forall i, j | 0 <= i < j < NBUF ensures t.stamp[t.c.order[i]] > t.stamp[t.c.order[j]] {
        assert t.c.order[j] == if j <= k then s.c.order[j - 1] else s.c.order[j];
        assert i > 0 ==> t.c.order[i] == if i <= k then s.c.order[i - 1] else s.c.order[i];
      }
    }
  }

  // ---------------------------------------------------------------- every run

  /** An initial cache: no buffer is used, valid or dirty, in the order binit makes. */
  ghost predicate Fresh(s: State) {
    && Shaped(s.c) && s.holds == map[] && LruInv(s)
    && forall b :: 0 <= b < NBUF ==> var buf := s.c.bufs[b]; buf.dev == 0 && buf.refcnt == 0 && !buf.valid && !buf.dirty
  }

  lemma FreshInv(s: State)
    requires Fresh(s)
    ensures Inv(s)
  {
    forall b | 0 <= b < NBUF ensures |Refs(s.holds, b)| == 0 {
      assert Refs(s.holds, b) == {};
    }
  }

  lemma Keeps(s: State, e: Event)
    requires Inv(s) && Enabled(s, e)
    ensures Inv(Do(s, e))
  {
    hide Inv, Enabled, Do;
    match e
    case EvGet(h, d, n) => GetKeeps(s, h, d, n);
    case EvDrop(h) => DropKeeps(s, h);
    case _ => HolderKeeps(s, e);
  }

  /** The block that the cache, standing for the disk, shows as block n. */
  function Shown(c: Cache, n: nat): (x: Block)
    requires n < |c.disk| && forall j :: 0 <= j < |c.order| ==> c.order[j] < |c.bufs|
  {
    FindIs(c, 1, n, 0);
    match FindFrom(c, 1, n, 0)
    case Some(b) => if c.bufs[b].valid then c.bufs[b].data else c.disk[n]
    case None => c.disk[n]
  }

  /** Shown in terms of whichever buffer caches the block. */
  lemma ShownIs(c: Cache, n: nat)
    requires Shaped(c) && OneEach(c) && n < |c.disk|
    ensures forall b :: 0 <= b < NBUF && c.bufs[b].Is(1, n) ==>
              Shown(c, n) == if c.bufs[b].valid then c.bufs[b].data else c.disk[n]
    ensures (forall b :: 0 <= b < NBUF ==> !c.bufs[b].Is(1, n)) ==> Shown(c, n) == c.disk[n]
  {
    FindIs(c, 1, n, 0);
    if FindFrom(c, 1, n, 0).None? {
      NotCached(c, 1, n);
    }
  }

  /** What an event does to the disk as seen through the cache: only a change of data shows. */
  function SeenAfter(s: State, e: Event, n: nat): (x: Block)
    requires Inv(s) && Enabled(s, e) && n < |s.c.disk|
  {
    if e.EvModify? && s.holds[e.h].n == n then e.data else Shown(s.c, n)
  }

  lemma GetShows(s: State, h: nat, d: nat, k: nat, n: nat)
    requires Inv(s) && Enabled(s, EvGet(h, d, k)) && n < |s.c.disk|
    ensures var t := Do(s, EvGet(h, d, k)); Inv(t) && |t.c.disk| == |s.c.disk| && Shown(t.c, n) == Shown(s.c, n)
  {
    hide Do, Get, Refs, LruInv, RefInv, Shown;
    var t := Do(s, EvGet(h, d, k));
    GetCases(s, h, d, k);
    GetKeeps(s, h, d, k);
    ShownIs(s.c, n);
    ShownIs(t.c, n);
    var b := Get(s.c, d, k).value.1;
    if s.c.bufs[b].Is(1, n) && s.c.bufs[b].Idle() && s.c.bufs[b].valid {
      IdleClean(s, b);
    }
    if forall a :: 0 <= a < NBUF ==> !s.c.bufs[a].Is(1, n) {
    } else {
      var a :| 0 <= a < NBUF && s.c.bufs[a].Is(1, n);
      assert t.c.bufs[a].Is(1, n) || a == b;
    }
  }

  /** An idle valid buffer equals the disk, so that taking it over loses nothing. */
  lemma IdleClean(s: State, b: nat)
    requires Inv(s) && b < NBUF && s.c.bufs[b].Idle() && s.c.bufs[b].valid
    ensures OnDisk(s.c, b) && s.c.bufs[b].data == s.c.disk[s.c.bufs[b].blockno]
  {
    NoRefs(s, b);
    assert !BeingChanged(s, b);
  }

  lemma DropShows(s: State, h: nat, n: nat)
    requires Inv(s) && Enabled(s, EvDrop(h)) && n < |s.c.disk|
    ensures var t := Do(s, EvDrop(h)); Inv(t) && |t.c.disk| == |s.c.disk| && Shown(t.c, n) == Shown(s.c, n)
  {
    hide Refs, PlaceOf, ToFront, LruInv, RefInv, Shown, DataInv;
    var t := Do(s, EvDrop(h));
    DropKeeps(s, h);
    ShownIs(s.c, n);
    ShownIs(t.c, n);
    if exists a :: 0 <= a < NBUF && s.c.bufs[a].Is(1, n) {
      var a :| 0 <= a < NBUF && s.c.bufs[a].Is(1, n);
      assert t.c.bufs[a].Is(1, n);
    }
  }

  lemma HolderShows(s: State, e: Event, n: nat)
    requires Inv(s) && OfHolder(e) && Enabled(s, e) && n < |s.c.disk|
    ensures var t := Do(s, e); Inv(t) && |t.c.disk| == |s.c.disk| && Shown(t.c, n) == SeenAfter(s, e, n)
  {
    hide LruInv, Shown, Permutes, Do, OneEach;
    var t := Do(s, e);
    HolderShape(s, e);
    HolderKeeps(s, e);
    HolderBuf(s, e);
    ShownIs(s.c, n);
    ShownIs(t.c, n);
    if exists a :: 0 <= a < NBUF && s.c.bufs[a].Is(1, n) {
      var a :| 0 <= a < NBUF && s.c.bufs[a].Is(1, n);
      assert t.c.bufs[a].Is(1, n);
    }
  }

  /** Every event leaves the disk seen through the cache as it was, but for changes of data. */
  lemma StepShows(s: State, e: Event, n: nat)
    requires Inv(s) && Enabled(s, e) && n < |s.c.disk|
    ensures var t := Do(s, e); Inv(t) && |t.c.disk| == |s.c.disk| && Shown(t.c, n) == SeenAfter(s, e, n)
  {
    hide Inv, Enabled, Do;
    match e
    case EvGet(h, d, k) => GetShows(s, h, d, k, n);
    case EvDrop(h) => DropShows(s, h, n);
    case _ => HolderShows(s, e, n);
  }

  /** Events es can happen one after another from s. */
  ghost predicate Runs(s: State, es: seq<Event>)
    decreases |es|
  {
    es == [] || (Shaped(s.c) && |s.stamp| == NBUF && Enabled(s, es[0]) && Runs(Do(s, es[0]), es[1..]))
  }

  ghost function End(s: State, es: seq<Event>): (t: State)
    requires Runs(s, es)
    decreases |es|
  {
    if es == [] then s else End(Do(s, es[0]), es[1..])
  }

  /** A plain disk with no cache: block n, at first x, after the changes of a run. */
  ghost function Plain(s: State, es: seq<Event>, n: nat, x: Block): (y: Block)
    requires Runs(s, es)
    decreases |es|
  {
    if es == [] then x
    else Plain(Do(s, es[0]), es[1..], n, if es[0].EvModify? && s.holds[es[0].h].n == n then es[0].data else x)
  }

  lemma {:induction false} RunShows(s: State, es: seq<Event>, n: nat)
    requires Inv(s) && Runs(s, es) && n < |s.c.disk|
    ensures var t := End(s, es); Inv(t) && |t.c.disk| == |s.c.disk| && Shown(t.c, n) == Plain(s, es, n, Shown(s.c, n))
    decreases |es|
  {
    hide Inv, Enabled, Do, Shown;
    if es != [] {
      StepShows(s, es[0], n);
      RunShows(Do(s, es[0]), es[1..], n);
    }
  }

  lemma FreshShows(s: State, n: nat)
    requires Fresh(s) && n < |s.c.disk|
    ensures Shown(s.c, n) == s.c.disk[n]
  {
    FindIs(s.c, 1, n, 0);
  }

  /**
   The cache refines the disk. In every run from an empty cache, whoever has read block n sees
   what a plain disk would hold after the same changes.
   */
  lemma CacheRefinesDisk(s: State, es: seq<Event>, h: nat)
    requires Fresh(s) && Runs(s, es) && (At(End(s, es), h, Ready) || At(End(s, es), h, Changed))
    ensures var t := End(s, es);
      var x := t.holds[h];
      && x.n < |s.c.disk| && t.c.bufs[x.b].data == Plain(s, es, x.n, s.c.disk[x.n])
  {
    hide Runs, Plain, Shown, Fresh, End;
    var t := End(s, es);
    FreshInv(s);
    RunsKeep(s, es);
    var n := t.holds[h].n;
    assert n < |s.c.disk|;
    RunShows(s, es, n);
    FreshShows(s, n);
    ShownIs(t.c, n);
  }

  /** Every reachable state keeps the invariant. */
  lemma {:induction false} RunsKeep(s: State, es: seq<Event>)
    requires Inv(s) && Runs(s, es)
    ensures Inv(End(s, es)) && |End(s, es).c.disk| == |s.c.disk|
    decreases |es|
  {
    hide Inv, Enabled, Do;
    if es != [] {
      Keeps(s, es[0]);
      DiskSize(s, es[0]);
      RunsKeep(Do(s, es[0]), es[1..]);
    }
  }

  lemma DiskSize(s: State, e: Event)
    requires Inv(s) && Enabled(s, e)
    ensures |Do(s, e).c.disk| == |s.c.disk|
  {
    hide RefInv, OneEach, DataInv, LruInv, PlaceOf, ToFront;
    if e.EvGet? {
      GetCases(s, e.h, e.d, e.n);
    }
  }

  /** A buffer that is dirty or referenced is not taken over, whatever is asked for. */
  lemma NeverRecycled(s: State, h: nat, d: nat, n: nat, b: nat)
    requires Inv(s) && Enabled(s, EvGet(h, d, n)) && b < NBUF && (s.c.bufs[b].dirty || s.c.bufs[b].refcnt > 0)
    ensures |Do(s, EvGet(h, d, n)).c.bufs| == NBUF
    ensures var buf := Do(s, EvGet(h, d, n)).c.bufs[b];
      buf == s.c.bufs[b] || buf == s.c.bufs[b].(refcnt := s.c.bufs[b].refcnt + 1)
  {
    hide RefInv, DataInv, LruInv, OneEach, Do, Get;
    GetCases(s, h, d, n);
  }

  /** The buffer that bget takes over is the one released longest ago among the idle ones. */
  lemma VictimIsOldest(s: State, b: nat, a: nat)
    requires Inv(s) && VictimUpTo(s.c, NBUF) == Some(b) && a < NBUF && s.c.bufs[a].Idle()
    ensures b < NBUF && s.c.bufs[b].Idle() && s.stamp[b] <= s.stamp[a]
  {
    hide RefInv, DataInv, OneEach;
    assert a in s.c.order;
    var k :| 0 <= k < NBUF && s.c.order[k] == a;
    VictimLast(s.c, NBUF, k);
  }

  lemma {:induction false} VictimLast(c: Cache, m: nat, k: nat)
    requires Shaped(c) && k < m <= NBUF && c.bufs[c.order[k]].Idle()
    ensures exists j :: k <= j < m && VictimUpTo(c, m) == Some(c.order[j]) && c.bufs[c.order[j]].Idle()
  {
    if !c.bufs[c.order[m - 1]].Idle() {
      VictimLast(c, m - 1, k);
    }
  }

  /** bwrite puts what the caller sees on the disk. */
  lemma WrittenThrough(s: State, h: nat)
    requires Inv(s) && Enabled(s, EvBwrite(h))
    ensures var n := s.holds[h].n;
      n < |s.c.disk| && Do(s, EvBwrite(h)).c.disk == s.c.disk[n := Shown(s.c, n)]
  {
    hide LruInv, Shown;
    HolderShape(s, EvBwrite(h));
    ShownIs(s.c, s.holds[h].n);
  }
}
