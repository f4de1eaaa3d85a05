/**
 The process table as a value, the steps that fork, exit, wait, schedule, sleep, wake and kill
 take under ptable.lock, and what every run of such steps keeps. Slot 0 is init.
 */
module Proc {
  import opened Wrappers

  datatype ProcState = UNUSED | EMBRYO | SLEEPING | RUNNABLE | RUNNING | ZOMBIE

  /** What a process sleeps on: a process, as in wait, or anything else. */
  datatype Chan = NoChan | OfProc(slot: nat) | Other(n: nat)

  datatype Proc = Proc(state: ProcState, pid: nat, parent: Option<nat>, chan: Chan, killed: bool,
                       ctime: nat, etime: nat, rtime: nat) {
    predicate Started() {
      state.SLEEPING? || state.RUNNABLE? || state.RUNNING? || state.ZOMBIE?
    }

    /** Started and not yet exited. */
    predicate Alive() {
      state.SLEEPING? || state.RUNNABLE? || state.RUNNING?
    }

    predicate SleepsOn(c: Chan) {
      state.SLEEPING? && chan == c
    }
  }

  /** wait and waitx take any child, waitpid one. */
  datatype WaitKind = AnyChild | Child(pid: nat)

  const INIT: nat := 0
  const TIMER_CPU: nat := 0

  // ---------------------------------------------------------------- operations on the slots

  /** wakeup1 */
  function Wake(procs: seq<Proc>, c: Chan): (r: seq<Proc>)
    ensures |r| == |procs|
  {
    seq(|procs|, i requires 0 <= i < |procs| =>
      if procs[i].SleepsOn(c) then procs[i].(state := RUNNABLE) else procs[i])
  }

  /** The first unused slot from k on. */
  function FirstUnused(procs: seq<Proc>, k: nat): (r: Option<nat>)
    requires k <= |procs|
    decreases |procs| - k
  {
    if k == |procs| then None
    else if procs[k].state.UNUSED? then Some(k)
    else FirstUnused(procs, k + 1)
  }

  /** allocproc's entry for a new process. */
  function Embryo(p: Proc, pid: nat, ticks: nat): (r: Proc) {
    p.(state := EMBRYO, pid := pid, ctime := ticks, rtime := 0, etime := 0)
  }

  /** Process p may be taken by a wait of process i. */
  predicate Waited(p: Proc, i: nat, k: WaitKind) {
    p.parent == Some(i) && (k.Child? ==> p.pid == k.pid)
  }

  predicate HasKids(procs: seq<Proc>, i: nat, k: WaitKind) {
    exists j :: 0 <= j < |procs| && Waited(procs[j], i, k)
  }

  /** The first waited-for zombie from slot j on. */
  function FirstZombie(procs: seq<Proc>, i: nat, k: WaitKind, j: nat): (r: Option<nat>)
    requires j <= |procs|
    decreases |procs| - j
  {
    if j == |procs| then None
    else if Waited(procs[j], i, k) && procs[j].state.ZOMBIE? then Some(j)
    else FirstZombie(procs, i, k, j + 1)
  }

  /** An entry after its process has been waited for. */
  function Reaped(p: Proc): (r: Proc) {
    p.(state := UNUSED, pid := 0, parent := None, killed := false)
  }

  /** exit of process i: wake the parent, give the children to init, become a zombie. */
  function ExitSlots(procs: seq<Proc>, i: nat, ticks: nat): (r: seq<Proc>)
    requires i < |procs| && procs[i].parent.Some?
    ensures |r| == |procs|
  {
    var woken := Wake(procs, OfProc(procs[i].parent.value));
    var initToo := if exists j :: 0 <= j < |procs| && procs[j].parent == Some(i) && procs[j].state.ZOMBIE?
                   then Wake(woken, OfProc(INIT)) else woken;
    seq(|procs|, j requires 0 <= j < |procs| =>
      var p := if procs[j].parent == Some(i) then initToo[j].(parent := Some(INIT)) else initToo[j];
      if j == i then p.(etime := ticks, state := ZOMBIE) else p)
  }

  /** The first slot with the given pid, whatever its state. */
  function FirstPid(procs: seq<Proc>, pid: nat, k: nat): (r: Option<nat>)
    requires k <= |procs|
    decreases |procs| - k
  {
    if k == |procs| then None
    else if procs[k].pid == pid then Some(k)
    else FirstPid(procs, pid, k + 1)
  }

  function Killed(p: Proc): (r: Proc) {
    if p.state.SLEEPING? then p.(killed := true, state := RUNNABLE) else p.(killed := true)
  }

  /** update_rtime */
  function Charge(procs: seq<Proc>): (r: seq<Proc>)
    ensures |r| == |procs|
  {
    seq(|procs|, i requires 0 <= i < |procs| =>
      if procs[i].state.RUNNING? then procs[i].(rtime := procs[i].rtime + 1) else procs[i])
  }

  /** A charge is missed by every process that has not exited and does not run. */
  function Missed(procs: seq<Proc>, book: seq<Book>): (r: seq<Book>)
    requires |book| == |procs|
    ensures |r| == |book|
  {
    seq(|book|, i requires 0 <= i < |book| =>
      if procs[i].state.EMBRYO? || (procs[i].Alive() && !procs[i].state.RUNNING?)
      then book[i].(misses := book[i].misses + 1) else book[i])
  }

  // ---------------------------------------------------------------- runs

  /**
   What happened to the process in a slot: whether it was allocated between a tick and its
   charge, how many charges it missed by not running, and whether it exited between a tick and
   its charge.
   */
  datatype Book = Book(late: bool, misses: nat, lateExit: bool)

  /**
   The table; the next pid; the ticks, and whether one of them still has to be charged; which
   CPU runs which slot; who is inside wait; who is creating which embryo; the pids that waits
   have returned; and the books of the slots.
   */
  datatype State = State(procs: seq<Proc>, nextpid: nat, ticks: nat, pending: bool, cpus: map<nat, nat>,
                         waits: map<nat, WaitKind>, forker: map<nat, nat>, reaped: seq<nat>, book: seq<Book>)

  datatype Event =
    | Alloc(f: nat)                // process f calls allocproc
    | AllocFails(j: nat)           // no memory for embryo j: it is given up
    | Adopt(j: nat)                // fork sets the parent of embryo j
    | Start(j: nat)                // fork makes embryo j runnable
    | Schedule(c: nat, i: nat)     // CPU c starts running process i
    | Yield(i: nat)
    | Sleep(i: nat, n: nat)        // on anything but a process
    | Wakeup(n: nat)
    | Kill(pid: nat)
    | Exit(i: nat)
    | Scan(i: nat, k: WaitKind)    // one round of wait, waitx or waitpid
    | Tick                         // the timer interrupt on CPU 0 counts a tick
    | ChargeTick                   // and then charges it

  /** Process i runs, and is free to enter a system call. */
  predicate Runs(s: State, i: nat) {
    i < |s.procs| && s.procs[i].state.RUNNING?
  }

  predicate Forking(s: State, i: nat) {
    exists j :: j in s.forker && s.forker[j] == i
  }

  /** Process i is the one the timer interrupt stopped on CPU 0, and it has not returned yet. */
  predicate InTrap(s: State, i: nat) {
    s.pending && TIMER_CPU in s.cpus && s.cpus[TIMER_CPU] == i
  }

  /** Process i can take its next step in the kernel. */
  predicate Steps(s: State, i: nat) {
    Runs(s, i) && !InTrap(s, i)
  }

  /** Slot j is an embryo whose forker can go on. */
  predicate IsEmbryo(s: State, j: nat) {
    j < |s.procs| && j in s.forker && Steps(s, s.forker[j])
  }

  predicate Enabled(s: State, e: Event) {
    && |s.book| == |s.procs|
    && match e
       case Alloc(f) => Steps(s, f) && f !in s.waits && !Forking(s, f) && FirstUnused(s.procs, 0).Some?
       case AllocFails(j) => IsEmbryo(s, j) && s.procs[j].parent.None?
       case Adopt(j) => IsEmbryo(s, j) && s.procs[j].parent.None?
       case Start(j) => IsEmbryo(s, j) && s.procs[j].parent.Some?
       case Schedule(c, i) =>
         c !in s.cpus && !(s.pending && c == TIMER_CPU) && i < |s.procs| && s.procs[i].state.RUNNABLE?
       case Yield(i) => Steps(s, i)
       case Sleep(i, n) => Steps(s, i) && i !in s.waits
       case Wakeup(n) => true
       case Kill(pid) => true
       case Exit(i) => Steps(s, i) && i != INIT && i !in s.waits && !Forking(s, i) && s.procs[i].parent.Some?
       case Scan(i, k) => Steps(s, i) && !Forking(s, i) && (i in s.waits ==> s.waits[i] == k)
       case Tick => !s.pending
       case ChargeTick => s.pending
  }

  function Put(s: State, i: nat, p: Proc): (t: State)
    requires i < |s.procs|
  {
    s.(procs := s.procs[i := p])
  }

  /** Process i gives up its CPU. */
  function OffCpu(s: State, i: nat): (t: State) {
    s.(cpus := map c | c in s.cpus && s.cpus[c] != i :: s.cpus[c])
  }

  /** One round of a wait: reap, give up, or sleep. */
  function DoScan(s: State, i: nat, k: WaitKind): (t: State)
    requires i < |s.procs|
  {
    match FirstZombie(s.procs, i, k, 0)
    case Some(j) =>
      (FirstZombieIs(s.procs, i, k, 0);
       Put(s, j, Reaped(s.procs[j])).(waits := s.waits - {i}, reaped := s.reaped + [s.procs[j].pid]))
    case None =>
      if !HasKids(s.procs, i, k) || s.procs[i].killed then s.(waits := s.waits - {i})
      else OffCpu(Put(s, i, s.procs[i].(state := SLEEPING, chan := OfProc(i))), i).(waits := s.waits[i := k])
  }

  function Do(s: State, e: Event): (t: State)
    requires Enabled(s, e)
  {
    match e
    case Alloc(f) =>
      FirstUnusedIs(s.procs, 0);
      var j := FirstUnused(s.procs, 0).value;
      Put(s, j, Embryo(s.procs[j], s.nextpid, s.ticks)).(nextpid := s.nextpid + 1, forker := s.forker[j := f],
        book := s.book[j := Book(s.pending, 0, false)])
    case AllocFails(j) => Put(s, j, s.procs[j].(state := UNUSED)).(forker := s.forker - {j})
    case Adopt(j) => Put(s, j, s.procs[j].(parent := Some(s.forker[j])))
    case Start(j) => Put(s, j, s.procs[j].(state := RUNNABLE)).(forker := s.forker - {j})
    case Schedule(c, i) => Put(s, i, s.procs[i].(state := RUNNING)).(cpus := s.cpus[c := i])
    case Yield(i) => OffCpu(Put(s, i, s.procs[i].(state := RUNNABLE)), i)
    case Sleep(i, n) => OffCpu(Put(s, i, s.procs[i].(state := SLEEPING, chan := Other(n))), i)
    case Wakeup(n) => s.(procs := Wake(s.procs, Other(n)))
    case Kill(pid) =>
      (match FirstPid(s.procs, pid, 0)
       case Some(j) => (FirstPidIs(s.procs, pid, 0); Put(s, j, Killed(s.procs[j])))
       case None => s)
    case Exit(i) =>
      OffCpu(s.(procs := ExitSlots(s.procs, i, s.ticks), book := s.book[i := s.book[i].(lateExit := s.pending)]), i)
    case Scan(i, k) => DoScan(s, i, k)
    case Tick => s.(ticks := s.ticks + 1, pending := true)
    case ChargeTick => s.(procs := Charge(s.procs), pending := false, book := Missed(s.procs, s.book))
  }

  lemma {:induction false} FirstUnusedIs(procs: seq<Proc>, k: nat)
    requires k <= |procs|
    ensures match FirstUnused(procs, k)
            case Some(j) =>
              k <= j < |procs| && procs[j].state.UNUSED? && forall i :: k <= i < j ==> !procs[i].state.UNUSED?
            case None => forall j :: k <= j < |procs| ==> !procs[j].state.UNUSED?
    decreases |procs| - k
  {
    if k < |procs| && !procs[k].state.UNUSED? {
      FirstUnusedIs(procs, k + 1);
    }
  }

  lemma {:induction false} FirstPidIs(procs: seq<Proc>, pid: nat, k: nat)
    requires k <= |procs|
    ensures match FirstPid(procs, pid, k)
            case Some(j) => k <= j < |procs| && procs[j].pid == pid && forall i :: k <= i < j ==> procs[i].pid != pid
            case None => forall j :: k <= j < |procs| ==> procs[j].pid != pid
    decreases |procs| - k
  {
    if k < |procs| && procs[k].pid != pid {
      FirstPidIs(procs, pid, k + 1);
    }
  }

  lemma {:induction false} FirstZombieIs(procs: seq<Proc>, i: nat, k: WaitKind, j: nat)
    requires j <= |procs|
    ensures match FirstZombie(procs, i, k, j)
            case Some(z) =>
              && j <= z < |procs| && Waited(procs[z], i, k) && procs[z].state.ZOMBIE?
              && forall y :: j <= y < z && Waited(procs[y], i, k) ==> !procs[y].state.ZOMBIE?
            case None => forall z :: j <= z < |procs| && Waited(procs[z], i, k) ==> !procs[z].state.ZOMBIE?
    decreases |procs| - j
  {
    if j < |procs| && !(Waited(procs[j], i, k) && procs[j].state.ZOMBIE?) {
      FirstZombieIs(procs, i, k, j + 1);
    }
  }

  // ---------------------------------------------------------------- invariants

  /** Pids of live processes are distinct and below the counter; none has been reaped. */
  ghost predicate PidInv(s: State) {
    && (forall i, j :: 0 <= i < j < |s.procs| && !s.procs[i].state.UNUSED? && !s.procs[j].state.UNUSED? ==>
          s.procs[i].pid != s.procs[j].pid)
    && (forall i :: 0 <= i < |s.procs| && !s.procs[i].state.UNUSED? ==> 1 <= s.procs[i].pid < s.nextpid)
    && (forall i :: 0 <= i < |s.procs| && !s.procs[i].state.UNUSED? ==> s.procs[i].pid !in s.reaped)
    && (forall a, b :: 0 <= a < b < |s.reaped| ==> s.reaped[a] != s.reaped[b])
    && (forall a :: 0 <= a < |s.reaped| ==> s.reaped[a] < s.nextpid)
  }

  /** Slot j can be the parent of process p. */
  ghost predicate GoodParent(procs: seq<Proc>, j: nat, p: Proc) {
    j < |procs| && procs[j].Alive() && procs[j].pid < p.pid
  }

  /** Every started process but init has a living parent that is older; init lives. */
  ghost predicate TreeInv(s: State) {
    && INIT < |s.procs| && s.procs[INIT].Alive() && s.procs[INIT].pid == 1 && s.procs[INIT].parent.None?
    && (forall i :: 0 < i < |s.procs| && s.procs[i].Started() ==>
          s.procs[i].parent.Some? && GoodParent(s.procs, s.procs[i].parent.value, s.procs[i]))
    && (forall i :: 0 <= i < |s.procs| && s.procs[i].state.UNUSED? ==> s.procs[i].parent.None?)
  }

  /** Every embryo is being created by a living older process, its parent once it has one. */
  ghost predicate ForkInv(s: State) {
    && (forall j :: 0 <= j < |s.procs| && s.procs[j].state.EMBRYO? ==> j in s.forker)
    && (forall j :: j in s.forker ==>
          && j < |s.procs| && s.procs[j].state.EMBRYO? && GoodParent(s.procs, s.forker[j], s.procs[j])
          && s.forker[j] !in s.waits
          && (s.procs[j].parent.Some? ==> s.procs[j].parent == Some(s.forker[j])))
  }

  /** Process i, waiting for k, has no zombie child it waits for. */
  ghost predicate NoZombie(procs: seq<Proc>, i: nat, k: WaitKind) {
    forall j :: 0 <= j < |procs| && Waited(procs[j], i, k) ==> !procs[j].state.ZOMBIE?
  }

  /** Whoever sleeps in a wait sleeps on itself, and has no zombie child it waits for. */
  ghost predicate WaitInv(s: State) {
    && (forall i :: i in s.waits ==> i < |s.procs| && s.procs[i].Alive())
    && (forall i :: i in s.waits && s.procs[i].state.SLEEPING? ==>
          s.procs[i].chan == OfProc(i) && NoZombie(s.procs, i, s.waits[i]))
  }

  /** Running processes and busy CPUs match one to one. */
  ghost predicate CpuInv(s: State) {
    && (forall c, d :: c in s.cpus && d in s.cpus && s.cpus[c] == s.cpus[d] ==> c == d)
    && (forall c :: c in s.cpus ==> Runs(s, s.cpus[c]))
    && (forall i: nat :: Runs(s, i) ==> exists c :: c in s.cpus && s.cpus[c] == i)
  }

  /** What elapsed time minus running time comes to, by the book. */
  function Due(b: Book): (w: int) {
    b.misses - (if b.late then 1 else 0)
  }

  /** The time of slot i is accounted for to the tick. */
  ghost predicate TimeAt(s: State, i: nat)
    requires |s.book| == |s.procs| && i < |s.procs|
  {
    && (s.procs[i].Alive() || s.procs[i].state.EMBRYO? ==>
          s.ticks - s.procs[i].ctime - s.procs[i].rtime == Due(s.book[i]) + (if s.pending then 1 else 0))
    && (s.procs[i].state.ZOMBIE? ==> Wtime(s.procs[i]) == Due(s.book[i]) + (if s.book[i].lateExit then 1 else 0))
  }

  ghost predicate TimeInv(s: State) {
    |s.book| == |s.procs| && forall i :: 0 <= i < |s.procs| ==> TimeAt(s, i)
  }

  /** The waiting time that waitx reports. */
  function Wtime(p: Proc): (w: int) {
    p.etime - p.ctime - p.rtime
  }

  /** All but the times. */
  ghost predicate Inv(s: State) {
    |s.book| == |s.procs| && PidInv(s) && TreeInv(s) && ForkInv(s) && WaitInv(s) && CpuInv(s)
  }

  // ---------------------------------------------------------------- steps that only move processes around

  /** The same processes in the same tree; living ones may have changed state. */
  ghost predicate SameTree(procs: seq<Proc>, r: seq<Proc>) {
    && |r| == |procs|
    && forall i :: 0 <= i < |procs| ==>
         && r[i].pid == procs[i].pid && r[i].parent == procs[i].parent
         && (r[i].state == procs[i].state || (r[i].Alive() && procs[i].Alive()))
  }

  lemma SameTreeKeeps(s: State, t: State)
    requires PidInv(s) && TreeInv(s) && ForkInv(s) && SameTree(s.procs, t.procs)
    requires t.nextpid == s.nextpid && t.forker == s.forker && t.reaped == s.reaped
    requires forall j :: j in s.forker ==> s.forker[j] !in t.waits
    ensures PidInv(t) && TreeInv(t) && ForkInv(t)
  {
    forall i, p | 0 <= i < |s.procs| && GoodParent(s.procs, i, p) ensures GoodParent(t.procs, i, p) {
    }
    TreeSame(s, t);
    ForkSame(s, t);
  }

  lemma TreeSame(s: State, t: State)
    requires TreeInv(s) && SameTree(s.procs, t.procs)
    ensures TreeInv(t)
  {
    forall i | 0 < i < |t.procs| && t.procs[i].Started()
      ensures t.procs[i].parent.Some? && GoodParent(t.procs, t.procs[i].parent.value, t.procs[i])
    {
      assert s.procs[i].Started();
    }
  }

  lemma ForkSame(s: State, t: State)
    requires ForkInv(s) && SameTree(s.procs, t.procs) && t.forker == s.forker
    requires forall j :: j in s.forker ==> s.forker[j] !in t.waits
    ensures ForkInv(t)
  {
  }

  /** No process newly falls asleep in a wait. */
  lemma WaitSame(s: State, t: State)
    requires WaitInv(s) && SameTree(s.procs, t.procs) && t.waits == s.waits
    requires forall i :: 0 <= i < |s.procs| && i in s.waits && t.procs[i].state.SLEEPING? ==> t.procs[i] == s.procs[i]
    ensures WaitInv(t)
  {
    forall i | i in t.waits && t.procs[i].state.SLEEPING?
      ensures t.procs[i].chan == OfProc(i) && NoZombie(t.procs, i, t.waits[i])
    {
      forall j | 0 <= j < |t.procs| && Waited(t.procs[j], i, t.waits[i]) ensures !t.procs[j].state.ZOMBIE? {
        assert Waited(s.procs[j], i, s.waits[i]);
      }
    }
  }

  lemma CpuSame(s: State, t: State)
    requires CpuInv(s) && t.cpus == s.cpus && |t.procs| == |s.procs|
    requires forall i :: 0 <= i < |s.procs| ==> (t.procs[i].state.RUNNING? <==> s.procs[i].state.RUNNING?)
    ensures CpuInv(t)
  {
    forall i: nat | Runs(t, i) ensures exists c :: c in t.cpus && t.cpus[c] == i {
      assert Runs(s, i);
    }
  }

  /** A process leaves its CPU and stops running. */
  lemma CpuLeft(s: State, t: State, i: nat)
    requires CpuInv(s) && t.cpus == OffCpu(s, i).cpus && |t.procs| == |s.procs|
    requires forall j :: 0 <= j < |s.procs| ==> (t.procs[j].state.RUNNING? <==> s.procs[j].state.RUNNING? && j != i)
    ensures CpuInv(t)
  {
    forall j: nat | Runs(t, j) ensures exists c :: c in t.cpus && t.cpus[c] == j {
      assert Runs(s, j);
      var c :| c in s.cpus && s.cpus[c] == j;
      assert c in t.cpus;
    }
  }

  lemma ScheduleKeeps(s: State, c: nat, i: nat)
    requires Inv(s) && Enabled(s, Schedule(c, i))
    ensures Inv(Do(s, Schedule(c, i)))
  {
    hide PidInv, TreeInv, ForkInv, CpuInv, WaitInv, FirstUnused, FirstPid, FirstZombie;
    var t := Do(s, Schedule(c, i));
    ForkersFree(s);
    SameTreeKeeps(s, t);
    WaitSame(s, t);
    CpuTaken(s, c, i);
  }

  lemma ForkersFree(s: State)
    requires ForkInv(s)
    ensures forall j :: j in s.forker ==> s.forker[j] !in s.waits
  {
  }

  lemma CpuTaken(s: State, c: nat, i: nat)
    requires CpuInv(s) && Enabled(s, Schedule(c, i))
    ensures CpuInv(Do(s, Schedule(c, i)))
  {
    var t := Do(s, Schedule(c, i));
    forall j: nat | Runs(t, j) ensures exists d :: d in t.cpus && t.cpus[d] == j {
      if j == i {
        assert t.cpus[c] == i;
      } else {
        assert Runs(s, j);
        var d :| d in s.cpus && s.cpus[d] == j;
        assert t.cpus[d] == j;
      }
    }
  }

  lemma StopKeeps(s: State, i: nat, p: Proc)
    requires Inv(s) && Runs(s, i) && p.Alive() && !p.state.RUNNING?
    requires p.pid == s.procs[i].pid && p.parent == s.procs[i].parent && (p.state.SLEEPING? ==> i !in s.waits)
    ensures Inv(OffCpu(Put(s, i, p), i))
  {
    hide PidInv, TreeInv, ForkInv, CpuInv, WaitInv;
    var t := OffCpu(Put(s, i, p), i);
    ForkersFree(s);
    SameTreeKeeps(s, t);
    WaitSame(s, t);
    CpuLeft(s, t, i);
  }

  lemma WakeKeeps(s: State, c: Chan)
    requires Inv(s)
    ensures Inv(s.(procs := Wake(s.procs, c)))
  {
    hide PidInv, TreeInv, ForkInv, CpuInv, WaitInv;
    var t := s.(procs := Wake(s.procs, c));
    ForkersFree(s);
    SameTreeKeeps(s, t);
    WaitSame(s, t);
    CpuSame(s, t);
  }

  lemma KillKeeps(s: State, pid: nat)
    requires Inv(s)
    ensures Inv(Do(s, Kill(pid)))
  {
    hide PidInv, TreeInv, ForkInv, CpuInv, WaitInv, FirstPid;
    FirstPidIs(s.procs, pid, 0);
    var t := Do(s, Kill(pid));
    ForkersFree(s);
    SameTreeKeeps(s, t);
    WaitSame(s, t);
    CpuSame(s, t);
  }

  lemma ChargeKeeps(s: State, t: State)
    requires Inv(s) && t.procs == Charge(s.procs) && |t.book| == |s.book| && t.nextpid == s.nextpid && t.cpus == s.cpus
    requires t.waits == s.waits && t.forker == s.forker && t.reaped == s.reaped
    ensures Inv(t)
  {
    hide PidInv, TreeInv, ForkInv, CpuInv, WaitInv;
    ForkersFree(s);
    SameTreeKeeps(s, t);
    WaitSame(s, t);
    CpuSame(s, t);
  }

  /** Leaving a wait without a child. */
  lemma GiveUpKeeps(s: State, i: nat)
    requires Inv(s)
    ensures Inv(s.(waits := s.waits - {i}))
  {
    hide PidInv, TreeInv, ForkInv, CpuInv, WaitInv;
    var t := s.(waits := s.waits - {i});
    ForkersFree(s);
    SameTreeKeeps(s, t);
    CpuSame(s, t);
    FewerWaits(s, t);
  }

  lemma FewerWaits(s: State, t: State)
    requires WaitInv(s) && t.procs == s.procs && t.waits.Keys <= s.waits.Keys
    requires forall i :: i in t.waits ==> t.waits[i] == s.waits[i]
    ensures WaitInv(t)
  {
  }

  /** Process i newly sleeps in a wait. */
  lemma MoreWaits(s: State, t: State, i: nat, k: WaitKind)
    requires WaitInv(s) && SameTree(s.procs, t.procs) && t.waits == s.waits[i := k] && i < |s.procs|
    requires forall j :: 0 <= j < |s.procs| && j != i ==> t.procs[j] == s.procs[j]
    requires t.procs[i].SleepsOn(OfProc(i))
    requires forall j :: 0 <= j < |s.procs| && Waited(s.procs[j], i, k) ==> !s.procs[j].state.ZOMBIE?
    ensures WaitInv(t)
  {
    forall w, j | w in t.waits && t.procs[w].state.SLEEPING? && 0 <= j < |t.procs| && Waited(t.procs[j], w, t.waits[w])
      ensures !t.procs[j].state.ZOMBIE?
    {
      assert Waited(s.procs[j], w, t.waits[w]);
    }
  }

  /** Falling asleep in a wait, having found no zombie. */
  lemma WaitSleepKeeps(s: State, i: nat, k: WaitKind)
    requires Inv(s) && Runs(s, i) && !Forking(s, i)
    requires forall j :: 0 <= j < |s.procs| && Waited(s.procs[j], i, k) ==> !s.procs[j].state.ZOMBIE?
    ensures Inv(OffCpu(Put(s, i, s.procs[i].(state := SLEEPING, chan := OfProc(i))), i).(waits := s.waits[i := k]))
  {
    hide PidInv, TreeInv, ForkInv, CpuInv, WaitInv, Waited;
    var t := OffCpu(Put(s, i, s.procs[i].(state := SLEEPING, chan := OfProc(i))), i).(waits := s.waits[i := k]);
    ForkersFree(s);
    SameTreeKeeps(s, t);
    CpuLeft(s, t, i);
    MoreWaits(s, t, i, k);
  }

  // ---------------------------------------------------------------- fork

  lemma AllocKeeps(s: State, f: nat)
    requires Inv(s) && Enabled(s, Alloc(f))
    ensures Inv(Do(s, Alloc(f)))
  {
    hide FirstUnused, CpuInv;
    FirstUnusedIs(s.procs, 0);
    var t := Do(s, Alloc(f));
    CpuSame(s, t);
    var j := FirstUnused(s.procs, 0).value;
    assert t.procs == s.procs[j := Embryo(s.procs[j], s.nextpid, s.ticks)];
    AllocPids(s, t, j);
    AllocTree(s, t, j);
    AllocFork(s, t, f, j);
    AllocWait(s, t, j);
  }

  lemma AllocPids(s: State, t: State, j: nat)
    requires PidInv(s) && j < |s.procs| && t.procs == s.procs[j := Embryo(s.procs[j], s.nextpid, s.ticks)]
    requires t.nextpid == s.nextpid + 1 && t.reaped == s.reaped && s.nextpid >= 1
    ensures PidInv(t)
  {
  }

  lemma AllocTree(s: State, t: State, j: nat)
    requires TreeInv(s) && j < |s.procs| && s.procs[j].state.UNUSED?
             && t.procs == s.procs[j := Embryo(s.procs[j], s.nextpid, s.ticks)]
    ensures TreeInv(t)
  {
  }

  lemma AllocFork(s: State, t: State, f: nat, j: nat)
    requires ForkInv(s) && Runs(s, f) && f !in s.waits && s.procs[f].pid < s.nextpid
    requires j < |s.procs| && s.procs[j].state.UNUSED? && s.procs[j].parent.None?
             && t.procs == s.procs[j := Embryo(s.procs[j], s.nextpid, s.ticks)]
    requires t.forker == s.forker[j := f] && t.waits == s.waits
    ensures ForkInv(t)
  {
    forall i | i in t.forker ensures GoodParent(t.procs, t.forker[i], t.procs[i]) {
      assert i != j ==> GoodParent(s.procs, s.forker[i], s.procs[i]);
    }
  }

  lemma AllocWait(s: State, t: State, j: nat)
    requires WaitInv(s) && j < |s.procs| && s.procs[j].state.UNUSED? && t.waits == s.waits
    requires t.procs == s.procs[j := Embryo(s.procs[j], s.nextpid, s.ticks)]
    ensures WaitInv(t)
  {
    forall w, i | w in t.waits && t.procs[w].state.SLEEPING? && 0 <= i < |t.procs| && Waited(t.procs[i], w, t.waits[w])
      ensures !t.procs[i].state.ZOMBIE?
    {
      assert i != j ==> Waited(s.procs[i], w, t.waits[w]);
    }
  }

  /** A slot that is nobody's parent gets an entry p that is no zombie. */
  lemma SlotWait(s: State, t: State, j: nat, p: Proc)
    requires WaitInv(s) && j < |s.procs| && !s.procs[j].Alive() && !p.state.ZOMBIE?
    requires t.procs == s.procs[j := p] && t.waits == s.waits
    ensures WaitInv(t)
  {
    forall w, i | w in t.waits && t.procs[w].state.SLEEPING? && 0 <= i < |t.procs| && Waited(t.procs[i], w, t.waits[w])
      ensures !t.procs[i].state.ZOMBIE?
    {
      assert i != j ==> Waited(s.procs[i], w, t.waits[w]);
    }
  }

  lemma SlotPids(s: State, t: State, j: nat, p: Proc)
    requires PidInv(s) && j < |s.procs| && t.procs == s.procs[j := p] && t.nextpid == s.nextpid && t.reaped == s.reaped
    requires p.state.UNUSED? || (p.pid == s.procs[j].pid && !s.procs[j].state.UNUSED?)
    ensures PidInv(t)
  {
  }

  lemma SlotTree(s: State, t: State, j: nat, p: Proc)
    requires TreeInv(s) && 0 < j < |s.procs| && !s.procs[j].Alive() && t.procs == s.procs[j := p]
    requires p.state.UNUSED? ==> p.parent.None?
    requires p.Started() ==> p.parent.Some? && GoodParent(s.procs, p.parent.value, p)
    ensures TreeInv(t)
  {
    forall i | 0 < i < |t.procs| && t.procs[i].Started()
      ensures t.procs[i].parent.Some? && GoodParent(t.procs, t.procs[i].parent.value, t.procs[i])
    {
      if i != j {
        assert GoodParent(s.procs, s.procs[i].parent.value, s.procs[i]);
      }
    }
  }

  lemma SlotFork(s: State, t: State, j: nat, p: Proc)
    requires ForkInv(s) && j < |s.procs| && !s.procs[j].Alive() && t.procs == s.procs[j := p] && t.waits == s.waits
    requires t.forker == (if p.state.EMBRYO? then s.forker else s.forker - {j})
    requires p.state.EMBRYO? ==>
               j in s.forker && p.pid == s.procs[j].pid && (p.parent.Some? ==> p.parent == Some(s.forker[j]))
    ensures ForkInv(t)
  {
    hide GoodParent;
    forall i | i in t.forker ensures GoodParent(t.procs, t.forker[i], t.procs[i]) {
      SlotParent(s, t, j, p, i);
    }
  }

  lemma SlotParent(s: State, t: State, j: nat, p: Proc, i: nat)
    requires ForkInv(s) && j < |s.procs| && !s.procs[j].Alive() && t.procs == s.procs[j := p] && i in s.forker
    requires i == j ==> p.pid == s.procs[j].pid
    ensures GoodParent(t.procs, s.forker[i], t.procs[i])
  {
    assert GoodParent(s.procs, s.forker[i], s.procs[i]);
  }

  lemma EmbryoIs(s: State, j: nat)
    requires TreeInv(s) && ForkInv(s) && j in s.forker
    ensures 0 < j < |s.procs| && s.procs[j].state.EMBRYO? && GoodParent(s.procs, s.forker[j], s.procs[j])
    ensures s.procs[j].parent.Some? ==> s.procs[j].parent == Some(s.forker[j])
  {
  }

  /** The last steps of fork, and its failure, keep the invariant. */
  lemma EmbryoKeeps(s: State, e: Event)
    requires Inv(s) && Enabled(s, e) && (e.AllocFails? || e.Adopt? || e.Start?)
    ensures Inv(Do(s, e))
  {
    hide PidInv, TreeInv, ForkInv, CpuInv, WaitInv;
    var t := Do(s, e);
    var p := t.procs[e.j];
    EmbryoIs(s, e.j);
    CpuSame(s, t);
    SlotPids(s, t, e.j, p);
    SlotTree(s, t, e.j, p);
    SlotFork(s, t, e.j, p);
    SlotWait(s, t, e.j, p);
  }

  // ---------------------------------------------------------------- wait

  lemma ReapPids(s: State, t: State, j: nat)
    requires PidInv(s) && j < |s.procs| && s.procs[j].state.ZOMBIE? && t.procs == s.procs[j := Reaped(s.procs[j])]
    requires t.nextpid == s.nextpid && t.reaped == s.reaped + [s.procs[j].pid]
    ensures PidInv(t)
  {
  }

  lemma ReapKeeps(s: State, i: nat, j: nat)
    requires Inv(s) && j < |s.procs| && s.procs[j].state.ZOMBIE?
    ensures Inv(Put(s, j, Reaped(s.procs[j])).(waits := s.waits - {i}, reaped := s.reaped + [s.procs[j].pid]))
  {
    hide PidInv, CpuInv, WaitInv;
    var p := Reaped(s.procs[j]);
    var t := Put(s, j, p);
    assert j != INIT;
    CpuSame(s, t);
    SlotTree(s, t, j, p);
    assert j !in s.forker;
    assert s.forker - {j} == s.forker;
    SlotFork(s, t, j, p);
    SlotWait(s, t, j, p);
    var u := t.(waits := s.waits - {i}, reaped := s.reaped + [s.procs[j].pid]);
    ReapPids(s, u, j);
    ReapRest(t, u, i);
  }

  lemma ReapRest(t: State, u: State, i: nat)
    requires TreeInv(t) && ForkInv(t) && WaitInv(t) && CpuInv(t)
    requires u.procs == t.procs && u.forker == t.forker && u.cpus == t.cpus && u.waits == t.waits - {i}
    ensures TreeInv(u) && ForkInv(u) && WaitInv(u) && CpuInv(u)
  {
    hide TreeInv, ForkInv, WaitInv, CpuInv;
    FewerWaits(t, u);
    CpuSame(t, u);
    ForkersFree(t);
    TreeSame(t, u);
    ForkSame(t, u);
  }

  lemma ScanKeeps(s: State, i: nat, k: WaitKind)
    requires Inv(s) && Enabled(s, Scan(i, k))
    ensures Inv(Do(s, Scan(i, k)))
  {
    hide PidInv, TreeInv, ForkInv, CpuInv, WaitInv, FirstZombie, HasKids;
    FirstZombieIs(s.procs, i, k, 0);
    if FirstZombie(s.procs, i, k, 0).Some? {
      ReapKeeps(s, i, FirstZombie(s.procs, i, k, 0).value);
    } else if !HasKids(s.procs, i, k) || s.procs[i].killed {
      GiveUpKeeps(s, i);
    } else {
      WaitSleepKeeps(s, i, k);
    }
  }

  // ---------------------------------------------------------------- exit

  /** A zombie child of process i passes to init. */
  predicate LeavesZombie(procs: seq<Proc>, i: nat) {
    exists j :: 0 <= j < |procs| && procs[j].parent == Some(i) && procs[j].state.ZOMBIE?
  }

  /** What exit of process i does to slot j. */
  lemma ExitSlot(procs: seq<Proc>, i: nat, ticks: nat, j: nat)
    requires i < |procs| && procs[i].parent.Some? && j < |procs|
    ensures var r := ExitSlots(procs, i, ticks)[j];
      && r.pid == procs[j].pid && r.ctime == procs[j].ctime && r.rtime == procs[j].rtime && r.chan == procs[j].chan
      && r.killed == procs[j].killed
      && r.parent == (if procs[j].parent == Some(i) then Some(INIT) else procs[j].parent)
      && (j == i ==> r.state.ZOMBIE? && r.etime == ticks)
      && (j != i ==> r.etime == procs[j].etime)
      && (j != i ==>
            r.state == if procs[j].SleepsOn(OfProc(procs[i].parent.value))
                          || (LeavesZombie(procs, i) && procs[j].SleepsOn(OfProc(INIT)))
                       then RUNNABLE else procs[j].state)
  {
  }

  lemma ExitTree(s: State, t: State, i: nat)
    requires PidInv(s) && TreeInv(s) && Enabled(s, Exit(i)) && t.procs == ExitSlots(s.procs, i, s.ticks)
    ensures TreeInv(t)
  {
    hide ExitSlots, LeavesZombie;
    ExitSlot(s.procs, i, s.ticks, INIT);
    forall j | 0 < j < |t.procs| && t.procs[j].Started()
      ensures t.procs[j].parent.Some? && GoodParent(t.procs, t.procs[j].parent.value, t.procs[j])
    {
      ExitSlot(s.procs, i, s.ticks, j);
      assert s.procs[j].Started();
      var q := s.procs[j].parent.value;
      assert GoodParent(s.procs, q, s.procs[j]);
      ExitSlot(s.procs, i, s.ticks, q);
      assert s.procs[j].pid != s.procs[INIT].pid;
    }
    forall j | 0 <= j < |t.procs| && t.procs[j].state.UNUSED? ensures t.procs[j].parent.None? {
      ExitSlot(s.procs, i, s.ticks, j);
      assert s.procs[j].parent.None?;
    }
  }

  lemma ExitPids(s: State, t: State, i: nat)
    requires PidInv(s) && Enabled(s, Exit(i)) && t.procs == ExitSlots(s.procs, i, s.ticks)
    requires t.nextpid == s.nextpid && t.reaped == s.reaped
    ensures PidInv(t)
  {
    hide ExitSlots, LeavesZombie;
    forall j | 0 <= j < |t.procs|
      ensures t.procs[j].pid == s.procs[j].pid && (t.procs[j].state.UNUSED? <==> s.procs[j].state.UNUSED?)
    {
      ExitSlot(s.procs, i, s.ticks, j);
    }
  }

  lemma ExitFork(s: State, t: State, i: nat)
    requires ForkInv(s) && Enabled(s, Exit(i)) && t.procs == ExitSlots(s.procs, i, s.ticks)
    requires t.forker == s.forker && t.waits == s.waits
    ensures ForkInv(t)
  {
    hide ExitSlots, LeavesZombie;
    forall j | 0 <= j < |t.procs| && t.procs[j].state.EMBRYO? ensures j in t.forker {
      ExitSlot(s.procs, i, s.ticks, j);
    }
    forall j | j in t.forker
      ensures && j < |t.procs| && t.procs[j].state.EMBRYO? && GoodParent(t.procs, t.forker[j], t.procs[j])
              && (t.procs[j].parent.Some? ==> t.procs[j].parent == Some(t.forker[j]))
    {
      ExitSlot(s.procs, i, s.ticks, j);
      assert GoodParent(s.procs, s.forker[j], s.procs[j]) && s.forker[j] != i;
      ExitSlot(s.procs, i, s.ticks, s.forker[j]);
    }
  }

  lemma ExitWait(s: State, t: State, i: nat)
    requires WaitInv(s) && TreeInv(s) && Enabled(s, Exit(i)) && t.procs == ExitSlots(s.procs, i, s.ticks)
             && t.waits == s.waits
    ensures WaitInv(t)
  {
    hide ExitSlots;
    assert GoodParent(s.procs, s.procs[i].parent.value, s.procs[i]);
    forall w | w in t.waits ensures w < |t.procs| && t.procs[w].Alive() {
      ExitSlot(s.procs, i, s.ticks, w);
    }
    forall w | w in t.waits && t.procs[w].state.SLEEPING?
      ensures t.procs[w].chan == OfProc(w) && NoZombie(t.procs, w, t.waits[w])
    {
      ExitSlot(s.procs, i, s.ticks, w);
      forall j | 0 <= j < |t.procs| && Waited(t.procs[j], w, t.waits[w]) ensures !t.procs[j].state.ZOMBIE? {
        ExitSlot(s.procs, i, s.ticks, j);
        assert s.procs[j].parent == Some(i) && s.procs[j].state.ZOMBIE? ==> LeavesZombie(s.procs, i);
        assert j != i && s.procs[j].parent != Some(i) ==> Waited(s.procs[j], w, s.waits[w]);
      }
    }
  }

  lemma ExitKeeps(s: State, i: nat)
    requires Inv(s) && Enabled(s, Exit(i))
    ensures Inv(Do(s, Exit(i)))
  {
    hide PidInv, TreeInv, ForkInv, CpuInv, WaitInv, ExitSlots, LeavesZombie;
    var t := Do(s, Exit(i));
    ExitPids(s, t, i);
    ExitTree(s, t, i);
    ExitFork(s, t, i);
    ExitWait(s, t, i);
    forall j | 0 <= j < |s.procs| ensures t.procs[j].state.RUNNING? <==> s.procs[j].state.RUNNING? && j != i {
      ExitSlot(s.procs, i, s.ticks, j);
    }
    CpuLeft(s, t, i);
  }

  // ---------------------------------------------------------------- every run

  lemma Keeps(s: State, e: Event)
    requires Inv(s) && Enabled(s, e)
    ensures Inv(Do(s, e))
  {
    hide Inv, PidInv, TreeInv, ForkInv, CpuInv, WaitInv;
    match e
    case Alloc(f) => AllocKeeps(s, f);
    case AllocFails(j) => EmbryoKeeps(s, e);
    case Adopt(j) => EmbryoKeeps(s, e);
    case Start(j) => EmbryoKeeps(s, e);
    case Schedule(c, i) => ScheduleKeeps(s, c, i);
    case Yield(i) => StopKeeps(s, i, s.procs[i].(state := RUNNABLE));
    case Sleep(i, n) => StopKeeps(s, i, s.procs[i].(state := SLEEPING, chan := Other(n)));
    case Wakeup(n) => WakeKeeps(s, Other(n));
    case Kill(pid) => KillKeeps(s, pid);
    case Exit(i) => ExitKeeps(s, i);
    case Scan(i, k) => ScanKeeps(s, i, k);
    case Tick => TickKeeps(s, Do(s, e));
    case ChargeTick => ChargeKeeps(s, Do(s, e));
  }

  lemma TickKeeps(s: State, t: State)
    requires Inv(s) && t == s.(ticks := t.ticks, pending := t.pending)
    ensures Inv(t)
  {
    hide PidInv, TreeInv, ForkInv, CpuInv, WaitInv;
    ForkersFree(s);
    SameTreeKeeps(s, t);
    WaitSame(s, t);
    CpuSame(s, t);
  }

  /** The table after boot: init is runnable, the other slots are unused. */
  function Boot(n: nat): (s: State) {
    var none := Proc(UNUSED, 0, None, NoChan, false, 0, 0, 0);
    State([none.(state := RUNNABLE, pid := 1)] + seq(n, _ => none), 2, 0, false, map[], map[], map[], [],
          seq(n + 1, _ => Book(false, 0, false)))
  }

  ghost predicate CanRun(s: State, es: seq<Event>)
    decreases |es|
  {
    es == [] || (Enabled(s, es[0]) && CanRun(Do(s, es[0]), es[1..]))
  }

  ghost function End(s: State, es: seq<Event>): (t: State)
    requires CanRun(s, es)
    decreases |es|
  {
    if es == [] then s else End(Do(s, es[0]), es[1..])
  }

  lemma {:induction false} RunsKeep(s: State, es: seq<Event>)
    requires Inv(s) && CanRun(s, es)
    ensures Inv(End(s, es))
    decreases |es|
  {
    hide Inv, Enabled, Do;
    if es != [] {
      Keeps(s, es[0]);
      RunsKeep(Do(s, es[0]), es[1..]);
    }
  }

  /** The process tree in every reachable state. */
  lemma ProcessTree(n: nat, es: seq<Event>)
    requires CanRun(Boot(n), es)
    ensures Inv(End(Boot(n), es))
  {
    hide CanRun, End;
    RunsKeep(Boot(n), es);
  }

  /** No pid is returned twice by wait, waitx or waitpid, and no live process has a returned pid. */
  lemma ReapedOnce(n: nat, es: seq<Event>, a: nat, b: nat, i: nat)
    requires CanRun(Boot(n), es) && a < b < |End(Boot(n), es).reaped|
    requires i < |End(Boot(n), es).procs| && !End(Boot(n), es).procs[i].state.UNUSED?
    ensures var t := End(Boot(n), es); t.reaped[a] != t.reaped[b] && t.procs[i].pid != t.reaped[a]
  {
    hide CanRun, End;
    ProcessTree(n, es);
  }

  // ---------------------------------------------------------------- the life of a slot

  /** The scan of process i finds slot j: the first zombie among the children it waits for. */
  ghost predicate Finds(procs: seq<Proc>, i: nat, k: WaitKind, j: nat) {
    && j < |procs| && procs[j].state == ZOMBIE && procs[j].parent == Some(i) && (k.Child? ==> procs[j].pid == k.pid)
    && forall y :: 0 <= y < j && procs[y].state == ZOMBIE && procs[y].parent == Some(i) ==>
         k.Child? && procs[y].pid != k.pid
  }

  lemma FindsFirst(procs: seq<Proc>, i: nat, k: WaitKind, j: nat)
    ensures Finds(procs, i, k, j) <==> FirstZombie(procs, i, k, 0) == Some(j)
  {
    FirstZombieIs(procs, i, k, 0);
  }

  /** Slot i is the first with the pid. */
  ghost predicate HasPid(procs: seq<Proc>, pid: nat, i: nat) {
    i < |procs| && procs[i].pid == pid && forall y :: 0 <= y < i ==> procs[y].pid != pid
  }

  lemma HasPidFirst(procs: seq<Proc>, pid: nat, i: nat)
    ensures HasPid(procs, pid, i) <==> FirstPid(procs, pid, 0) == Some(i)
  {
    FirstPidIs(procs, pid, 0);
  }

  /** A slot is marked as killed by a kill of its pid, until it is waited for; nothing else changes it. */
  lemma KilledIff(s: State, e: Event, i: nat)
    requires Enabled(s, e) && i < |s.procs|
    ensures |Do(s, e).procs| == |s.procs|
    ensures Do(s, e).procs[i].killed <==>
      (s.procs[i].killed || (e.Kill? && HasPid(s.procs, e.pid, i))) && !(e.Scan? && Finds(s.procs, e.i, e.k, i))
  {
    hide HasPid, Finds;
    match e
    case Kill(pid) =>
      hide FirstPid;
      FirstPidIs(s.procs, pid, 0);
      HasPidFirst(s.procs, pid, i);
    case Scan(w, k) =>
      hide DoScan;
      KilledScan(s, w, k, i);
    case Exit(x) =>
      hide ExitSlots;
      ExitSlot(s.procs, x, s.ticks, i);
    case Alloc(f) =>
      hide FirstUnused;
      FirstUnusedIs(s.procs, 0);
    case _ => hide Missed;
  }

  lemma KilledScan(s: State, w: nat, k: WaitKind, i: nat)
    requires Enabled(s, Scan(w, k)) && i < |s.procs|
    ensures |DoScan(s, w, k).procs| == |s.procs|
    ensures DoScan(s, w, k).procs[i].killed <==> s.procs[i].killed && !Finds(s.procs, w, k, i)
  {
    hide Finds, FirstZombie;
    FirstZombieIs(s.procs, w, k, 0);
    FindsFirst(s.procs, w, k, i);
  }

  /** No event of the run waits for the process in slot i. */
  ghost predicate NotReaped(s: State, es: seq<Event>, i: nat)
    requires CanRun(s, es)
    decreases |es|
  {
    es == [] || (!(es[0].Scan? && Finds(s.procs, es[0].i, es[0].k, i)) && NotReaped(Do(s, es[0]), es[1..], i))
  }

  /** Once killed, a process is so in every later state, until it is waited for. */
  lemma {:induction false} StaysKilled(s: State, es: seq<Event>, i: nat)
    requires CanRun(s, es) && NotReaped(s, es, i) && i < |s.procs| && s.procs[i].killed
    ensures |End(s, es).procs| == |s.procs| && End(s, es).procs[i].killed
    decreases |es|
  {
    hide Enabled, Do, Finds;
    if es != [] {
      KilledIff(s, es[0], i);
      StaysKilled(Do(s, es[0]), es[1..], i);
    }
  }

  /** A process asleep is woken by its channel, by a kill, or by the exit of a child or of a zombie's parent. */
  ghost predicate WokenBy(s: State, e: Event, i: nat)
    requires i < |s.procs|
  {
    || (e.Wakeup? && s.procs[i].chan == Other(e.n))
    || (e.Kill? && HasPid(s.procs, e.pid, i))
    || (e.Exit? && e.i < |s.procs| && s.procs[e.i].parent.Some?
        && (s.procs[i].chan == OfProc(s.procs[e.i].parent.value)
            || (s.procs[i].chan == OfProc(INIT)
                && exists z :: 0 <= z < |s.procs| && s.procs[z].parent == Some(e.i) && s.procs[z].state == ZOMBIE)))
  }

  /** A scan of process i ends asleep: no zombie is found, there is a child to wait for, and i is not killed. */
  ghost predicate ScanSleeps(s: State, i: nat, k: WaitKind)
    requires i < |s.procs|
  {
    && !s.procs[i].killed && (forall j: nat :: !Finds(s.procs, i, k, j))
    && exists j :: 0 <= j < |s.procs| && s.procs[j].parent == Some(i) && (k.Child? ==> s.procs[j].pid == k.pid)
  }

  /** q is the state that event e leads slot i to. */
  ghost predicate LeadsTo(s: State, e: Event, i: nat, q: ProcState)
    requires i < |s.procs|
  {
    match s.procs[i].state
    case UNUSED => q == if e.Alloc? && (forall y :: 0 <= y < i ==> s.procs[y].state != UNUSED) then EMBRYO else UNUSED
    case EMBRYO => q == if e == Start(i) then RUNNABLE else if e == AllocFails(i) then UNUSED else EMBRYO
    case RUNNABLE => q == if e.Schedule? && e.i == i then RUNNING else RUNNABLE
    case RUNNING =>
      q == (if e == Yield(i) then RUNNABLE
            else if e == Exit(i) then ZOMBIE
            else if (e.Sleep? && e.i == i) || (e.Scan? && e.i == i && ScanSleeps(s, i, e.k)) then SLEEPING
            else RUNNING)
    case SLEEPING => q == if WokenBy(s, e, i) then RUNNABLE else SLEEPING
    case ZOMBIE => q == if e.Scan? && Finds(s.procs, e.i, e.k, i) then UNUSED else ZOMBIE
  }

  lemma ForkLife(s: State, e: Event, i: nat)
    requires ForkInv(s) && Enabled(s, e) && i < |s.procs| && (e.Alloc? || e.AllocFails? || e.Adopt? || e.Start?)
    ensures |Do(s, e).procs| == |s.procs| && LeadsTo(s, e, i, Do(s, e).procs[i].state)
  {
    hide ScanSleeps, Finds, FirstUnused;
    match e
    case Alloc(f) => FirstUnusedIs(s.procs, 0);
    case AllocFails(j) => EmbryoThere(s, j);
    case Adopt(j) => EmbryoThere(s, j);
    case Start(j) => EmbryoThere(s, j);
  }

  lemma MoveLife(s: State, e: Event, i: nat)
    requires Enabled(s, e) && i < |s.procs|
    requires e.Schedule? || e.Yield? || e.Sleep? || e.Wakeup? || e.Tick? || e.ChargeTick?
    ensures |Do(s, e).procs| == |s.procs| && LeadsTo(s, e, i, Do(s, e).procs[i].state)
  {
    hide ScanSleeps, Finds, Missed;
  }

  lemma KillLife(s: State, pid: nat, i: nat)
    requires Enabled(s, Kill(pid)) && i < |s.procs|
    ensures |Do(s, Kill(pid)).procs| == |s.procs| && LeadsTo(s, Kill(pid), i, Do(s, Kill(pid)).procs[i].state)
  {
    hide ScanSleeps, Finds, HasPid, FirstPid;
    FirstPidIs(s.procs, pid, 0);
    HasPidFirst(s.procs, pid, i);
  }

  lemma ExitLife(s: State, x: nat, i: nat)
    requires Enabled(s, Exit(x)) && i < |s.procs|
    ensures |Do(s, Exit(x)).procs| == |s.procs| && LeadsTo(s, Exit(x), i, Do(s, Exit(x)).procs[i].state)
  {
    hide ScanSleeps, Finds, ExitSlots;
    ExitSlot(s.procs, x, s.ticks, i);
  }

  /** The state of every slot after every event, exactly. */
  lemma LifeCycle(s: State, e: Event, i: nat)
    requires Inv(s) && Enabled(s, e) && i < |s.procs|
    ensures |Do(s, e).procs| == |s.procs| && LeadsTo(s, e, i, Do(s, e).procs[i].state)
  {
    if e.Scan? {
      hide PidInv, TreeInv, WaitInv, CpuInv, ForkInv, ScanSleeps, Finds, DoScan;
      ScanState(s, e.i, e.k, i);
      FindsZombie(s.procs, e.i, e.k, i);
    } else {
      hide PidInv, TreeInv, WaitInv, CpuInv, ForkInv, LeadsTo, Enabled, Do;
      match e
      case Kill(pid) => KillLife(s, pid, i);
      case Exit(x) => ExitLife(s, x, i);
      case Alloc(f) => ForkLife(s, e, i);
      case AllocFails(j) => ForkLife(s, e, i);
      case Adopt(j) => ForkLife(s, e, i);
      case Start(j) => ForkLife(s, e, i);
      case _ => MoveLife(s, e, i);
    }
  }

  lemma FindsZombie(procs: seq<Proc>, x: nat, k: WaitKind, i: nat)
    requires i < |procs|
    ensures Finds(procs, x, k, i) ==> procs[i].state == ZOMBIE
  {
  }

  lemma ScanState(s: State, x: nat, k: WaitKind, i: nat)
    requires Enabled(s, Scan(x, k)) && i < |s.procs|
    ensures |DoScan(s, x, k).procs| == |s.procs|
    ensures DoScan(s, x, k).procs[i].state ==
      if Finds(s.procs, x, k, i) then UNUSED
      else if i == x && ScanSleeps(s, x, k) then SLEEPING else s.procs[i].state
  {
    hide Finds, FirstZombie;
    FirstZombieIs(s.procs, x, k, 0);
    FindsFirst(s.procs, x, k, i);
    forall j: nat ensures Finds(s.procs, x, k, j) <==> FirstZombie(s.procs, x, k, 0) == Some(j) {
      FindsFirst(s.procs, x, k, j);
    }
    assert HasKids(s.procs, x, k) <==>
      exists j :: 0 <= j < |s.procs| && s.procs[j].parent == Some(x) && (k.Child? ==> s.procs[j].pid == k.pid)
    by {
      if j: nat :| j < |s.procs| && s.procs[j].parent == Some(x) && (k.Child? ==> s.procs[j].pid == k.pid) {
        assert Waited(s.procs[j], x, k);
      }
    }
  }

  /** From p to q the process of slot i has kept what it is; a new one has what allocproc and fork give it. */
  ghost predicate Stays(s: State, e: Event, i: nat, p: Proc, q: Proc) {
    && (p.state == UNUSED && q.state == EMBRYO ==> q.pid == s.nextpid && q.ctime == s.ticks && q.rtime == 0)
    && (p.state != UNUSED && q.state != UNUSED ==> q.pid == p.pid && q.ctime == p.ctime)
    && (p.state != SLEEPING && q.state == SLEEPING ==> q.chan == if e.Sleep? then Other(e.n) else OfProc(i))
    && (p.state == SLEEPING ==> q.chan == p.chan)
    && (p.state == EMBRYO && q.state != UNUSED ==>
          q.parent == if e == Adopt(i) && i in s.forker then Some(s.forker[i]) else p.parent)
    && (p.Started() && q.state != UNUSED ==>
          q.parent == if e.Exit? && p.parent == Some(e.i) then Some(INIT) else p.parent)
  }

  lemma ForkStays(s: State, e: Event, i: nat)
    requires ForkInv(s) && Enabled(s, e) && i < |s.procs| && (e.Alloc? || e.AllocFails? || e.Adopt? || e.Start?)
    ensures |Do(s, e).procs| == |s.procs| && Stays(s, e, i, s.procs[i], Do(s, e).procs[i])
  {
    hide FirstUnused;
    match e
    case Alloc(f) => FirstUnusedIs(s.procs, 0);
    case AllocFails(j) => EmbryoThere(s, j);
    case Adopt(j) => EmbryoThere(s, j);
    case Start(j) => EmbryoThere(s, j);
  }

  lemma MoveStays(s: State, e: Event, i: nat)
    requires Enabled(s, e) && i < |s.procs|
    requires e.Schedule? || e.Yield? || e.Sleep? || e.Wakeup? || e.Tick? || e.ChargeTick?
    ensures |Do(s, e).procs| == |s.procs| && Stays(s, e, i, s.procs[i], Do(s, e).procs[i])
  {
    hide Missed;
  }

  lemma KillStays(s: State, pid: nat, i: nat)
    requires Enabled(s, Kill(pid)) && i < |s.procs|
    ensures |Do(s, Kill(pid)).procs| == |s.procs| && Stays(s, Kill(pid), i, s.procs[i], Do(s, Kill(pid)).procs[i])
  {
    hide FirstPid;
    FirstPidIs(s.procs, pid, 0);
  }

  lemma ExitStays(s: State, x: nat, i: nat)
    requires ForkInv(s) && Enabled(s, Exit(x)) && i < |s.procs|
    ensures |Do(s, Exit(x)).procs| == |s.procs| && Stays(s, Exit(x), i, s.procs[i], Do(s, Exit(x)).procs[i])
  {
    hide ExitSlots, ForkInv;
    if s.procs[i].state.EMBRYO? {
      NotEmbryoOf(s, x, i);
    }
    ExitSlot(s.procs, x, s.ticks, i);
  }

  lemma ScanStays(s: State, x: nat, k: WaitKind, i: nat)
    requires Enabled(s, Scan(x, k)) && i < |s.procs|
    ensures |DoScan(s, x, k).procs| == |s.procs| && Stays(s, Scan(x, k), i, s.procs[i], DoScan(s, x, k).procs[i])
  {
    hide FirstZombie;
    FirstZombieIs(s.procs, x, k, 0);
  }

  /** A process that exits is not forking, so that no embryo is its child. */
  lemma NotEmbryoOf(s: State, x: nat, i: nat)
    requires ForkInv(s) && Enabled(s, Exit(x)) && i < |s.procs| && s.procs[i].state.EMBRYO?
    ensures s.procs[i].parent != Some(x)
  {
  }

  /** Every event leaves every process what it is. */
  lemma Identity(s: State, e: Event, i: nat)
    requires Inv(s) && Enabled(s, e) && i < |s.procs|
    ensures |Do(s, e).procs| == |s.procs| && Stays(s, e, i, s.procs[i], Do(s, e).procs[i])
  {
    if e.Scan? {
      hide PidInv, TreeInv, WaitInv, CpuInv, ForkInv, Stays, DoScan;
      ScanStays(s, e.i, e.k, i);
    } else {
      hide PidInv, TreeInv, WaitInv, CpuInv, ForkInv, Stays, Enabled, Do;
      match e
      case Kill(pid) => KillStays(s, pid, i);
      case Exit(x) => ExitStays(s, x, i);
      case Alloc(f) => ForkStays(s, e, i);
      case AllocFails(j) => ForkStays(s, e, i);
      case Adopt(j) => ForkStays(s, e, i);
      case Start(j) => ForkStays(s, e, i);
      case _ => MoveStays(s, e, i);
    }
  }

  // ---------------------------------------------------------------- time

  lemma ExitTime(s: State, x: nat, i: nat)
    requires Enabled(s, Exit(x)) && i < |s.procs| && TimeAt(s, i)
    ensures |Do(s, Exit(x)).procs| == |s.procs| && |Do(s, Exit(x)).book| == |s.book| && TimeAt(Do(s, Exit(x)), i)
  {
    hide ExitSlots, LeavesZombie;
    ExitSlot(s.procs, x, s.ticks, i);
  }

  lemma ScanTime(s: State, x: nat, k: WaitKind, i: nat)
    requires Enabled(s, Scan(x, k)) && i < |s.procs| && TimeAt(s, i)
    ensures |DoScan(s, x, k).procs| == |s.procs| && TimeAt(DoScan(s, x, k), i)
  {
    hide FirstZombie, HasKids, Waited, Forking, InTrap;
    FirstZombieIs(s.procs, x, k, 0);
  }

  lemma ForkTime(s: State, e: Event, i: nat)
    requires ForkInv(s) && Enabled(s, e) && (e.Alloc? || e.AllocFails? || e.Adopt? || e.Start?) && i < |s.procs|
             && TimeAt(s, i)
    ensures |Do(s, e).procs| == |s.procs| && |Do(s, e).book| == |s.book| && TimeAt(Do(s, e), i)
  {
    hide FirstUnused, Forking;
    if e.Alloc? {
      FirstUnusedIs(s.procs, 0);
    } else {
      EmbryoThere(s, e.j);
    }
  }

  lemma EmbryoThere(s: State, j: nat)
    requires ForkInv(s) && j in s.forker
    ensures j < |s.procs| && s.procs[j].state.EMBRYO?
  {
  }

  /** Every step keeps the account of every slot. */
  lemma TimeStep(s: State, e: Event, i: nat)
    requires ForkInv(s) && Enabled(s, e) && i < |s.procs| && TimeAt(s, i)
    ensures |Do(s, e).procs| == |s.procs| && |Do(s, e).book| == |s.book| && TimeAt(Do(s, e), i)
  {
    hide ForkInv, ExitSlots, FirstPid, FirstZombie, FirstUnused, HasKids, Waited, Forking, InTrap;
    match e
    case Exit(x) => ExitTime(s, x, i);
    case Scan(x, k) => ScanTime(s, x, k, i);
    case Kill(pid) => FirstPidIs(s.procs, pid, 0);
    case Alloc(f) => ForkTime(s, e, i);
    case AllocFails(j) => ForkTime(s, e, i);
    case Adopt(j) => ForkTime(s, e, i);
    case Start(j) => ForkTime(s, e, i);
    case _ =>
  }

  lemma TimeKeeps(s: State, e: Event)
    requires Inv(s) && Enabled(s, e) && TimeInv(s)
    ensures TimeInv(Do(s, e))
  {
    hide PidInv, TreeInv, ForkInv, CpuInv, WaitInv, TimeAt, Enabled, Do;
    InitThere(s);
    TimeStep(s, e, INIT);
    forall i | 0 <= i < |s.procs| ensures TimeAt(Do(s, e), i) {
      TimeStep(s, e, i);
    }
  }

  lemma InitThere(s: State)
    requires TreeInv(s)
    ensures INIT < |s.procs|
  {
  }

  lemma {:induction false} RunsKeepTime(s: State, es: seq<Event>)
    requires Inv(s) && CanRun(s, es) && TimeInv(s)
    ensures Inv(End(s, es)) && TimeInv(End(s, es))
    decreases |es|
  {
    hide Inv, Enabled, Do, TimeInv;
    if es != [] {
      Keeps(s, es[0]);
      TimeKeeps(s, es[0]);
      RunsKeepTime(Do(s, es[0]), es[1..]);
    }
  }

  /**
   The waiting time of every zombie in every run, exactly: the charges it missed, less one if
   it was allocated between a tick and its charge, plus one if it exited between them. So it
   is never below -1; it is negative exactly for a process allocated in such a gap that ran at
   every charge and did not exit in one.
   */
  lemma WaitingTime(n: nat, es: seq<Event>, i: nat)
    requires CanRun(Boot(n), es) && i < |End(Boot(n), es).procs| && End(Boot(n), es).procs[i].state.ZOMBIE?
    ensures |End(Boot(n), es).book| == |End(Boot(n), es).procs|
    ensures var w, b := Wtime(End(Boot(n), es).procs[i]), End(Boot(n), es).book[i];
      && w == b.misses - (if b.late then 1 else 0) + (if b.lateExit then 1 else 0)
      && w >= -1 && (!b.late ==> w >= 0)
      && (w == -1 <==> b.late && b.misses == 0 && !b.lateExit)
  {
    hide CanRun, End;
    RunsKeepTime(Boot(n), es);
    assert TimeAt(End(Boot(n), es), i);
  }

  /** No process is allocated between a tick and its charge. */
  ghost predicate NoLateAlloc(s: State, es: seq<Event>)
    requires CanRun(s, es)
    decreases |es|
  {
    es == [] || (!(s.pending && es[0].Alloc?) && NoLateAlloc(Do(s, es[0]), es[1..]))
  }

  ghost predicate NoneLate(s: State) {
    forall i :: 0 <= i < |s.book| ==> !s.book[i].late
  }

  lemma {:induction false} NoneLateRun(s: State, es: seq<Event>)
    requires Inv(s) && CanRun(s, es) && NoLateAlloc(s, es) && NoneLate(s)
    ensures NoneLate(End(s, es))
    decreases |es|
  {
    hide Inv, Enabled, Do;
    if es != [] {
      Keeps(s, es[0]);
      NoneLateStep(s, es[0]);
      NoneLateRun(Do(s, es[0]), es[1..]);
    }
  }

  lemma NoneLateStep(s: State, e: Event)
    requires Enabled(s, e) && NoneLate(s) && !(s.pending && e.Alloc?)
    ensures NoneLate(Do(s, e))
  {
    hide ExitSlots, FirstPid, FirstZombie, FirstUnused, HasKids;
    if e.Alloc? {
      FirstUnusedIs(s.procs, 0);
    }
  }

  /** If no process is created between a tick and its charge, waitx never reports a negative time. */
  lemma WaitingTimeNotNegative(n: nat, es: seq<Event>, i: nat)
    requires CanRun(Boot(n), es) && NoLateAlloc(Boot(n), es)
    requires i < |End(Boot(n), es).procs| && End(Boot(n), es).procs[i].state.ZOMBIE?
    ensures Wtime(End(Boot(n), es).procs[i]) >= 0
  {
    hide CanRun, End, NoLateAlloc;
    NoneLateRun(Boot(n), es);
    WaitingTime(n, es, i);
  }

  lemma {:induction false} Extend(s: State, es: seq<Event>, e: Event)
    requires CanRun(s, es) && Enabled(End(s, es), e)
    ensures CanRun(s, es + [e]) && End(s, es + [e]) == Do(End(s, es), e)
    decreases |es|
  {
    hide Enabled, Do;
    if es == [] {
      assert (es + [e])[0] == e && (es + [e])[1..] == [];
    } else {
      Extend(Do(s, es[0]), es[1..], e);
      assert (es + [e])[0] == es[0] && (es + [e])[1..] == es[1..] + [e];
    }
  }

  /** Up to the point where init, on CPU 1, has allocated a child after a tick not yet charged. */
  lemma LateChild() returns (es: seq<Event>)
    ensures CanRun(Boot(1), es)
    ensures End(Boot(1), es) ==
      State([Proc(RUNNING, 1, None, NoChan, false, 0, 0, 0), Proc(EMBRYO, 2, None, NoChan, false, 1, 0, 0)],
            3, 1, true, map[1 := 0], map[], map[1 := 0], [], [Book(false, 0, false), Book(true, 0, false)])
  {
    es := [];
    Extend(Boot(1), es, Schedule(1, 0));
    es := es + [Schedule(1, 0)];
    Extend(Boot(1), es, Tick);
    es := es + [Tick];
    var s := End(Boot(1), es);
    assert s.procs == [Proc(RUNNING, 1, None, NoChan, false, 0, 0, 0), Proc(UNUSED, 0, None, NoChan, false, 0, 0, 0)];
    assert FirstUnused(s.procs, 1) == Some(1);
    Extend(Boot(1), es, Alloc(0));
    es := es + [Alloc(0)];
  }

  /** The child has started on CPU 2, and the tick is charged to it. */
  lemma ChargedChild() returns (es: seq<Event>)
    ensures CanRun(Boot(1), es)
    ensures End(Boot(1), es) ==
      State([Proc(RUNNING, 1, None, NoChan, false, 0, 0, 1), Proc(RUNNING, 2, Some(0), NoChan, false, 1, 0, 1)],
            3, 1, false, map[1 := 0, 2 := 1], map[], map[], [], [Book(false, 0, false), Book(true, 0, false)])
  {
    hide CanRun, End;
    es := LateChild();
    Extend(Boot(1), es, Adopt(1));
    es := es + [Adopt(1)];
    Extend(Boot(1), es, Start(1));
    es := es + [Start(1)];
    Extend(Boot(1), es, Schedule(2, 1));
    es := es + [Schedule(2, 1)];
    Extend(Boot(1), es, ChargeTick);
    es := es + [ChargeTick];
  }

  /** A process created, scheduled and charged between a tick and its charge reports -1. */
  lemma WaitingTimeCanBeNegative() returns (es: seq<Event>)
    ensures CanRun(Boot(1), es) && |End(Boot(1), es).procs| == 2
    ensures End(Boot(1), es).procs[1].state.ZOMBIE? && Wtime(End(Boot(1), es).procs[1]) == -1
  {
    hide CanRun, End;
    es := ChargedChild();
    var s := End(Boot(1), es);
    ExitSlot(s.procs, 1, 1, 1);
    Extend(Boot(1), es, Exit(1));
    es := es + [Exit(1)];
  }
}
