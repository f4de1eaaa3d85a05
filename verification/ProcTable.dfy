/** The process table as the code scans and updates it, under ptable.lock. */
module ProcTable {
  import opened Proc
  import opened Wrappers

  datatype ScanResult = Reap(pid: nat, wtime: int, rtime: nat) | NoChild | GoToSleep

  class Table {
    const procs: array<Proc>
    var nextpid: nat
    var ticks: nat

    constructor (n: nat)
      ensures procs.Length == n + 1 && procs[..] == Boot(n).procs && nextpid == 2 && ticks == 0
    {
      var none := Proc(UNUSED, 0, None, NoChan, false, 0, 0, 0);
      procs := new Proc[n + 1](i => if i == 0 then none.(state := RUNNABLE, pid := 1) else none);
      nextpid := 2;
      ticks := 0;
    }

    method Wakeup1(c: Chan)
      modifies procs
      ensures procs[..] == Wake(old(procs[..]), c)
      ensures forall i :: 0 <= i < procs.Length ==>
        procs[i] == if old(procs[i]).state == SLEEPING && old(procs[i]).chan == c
                    then old(procs[i]).(state := RUNNABLE) else old(procs[i])
    {
      var i := 0;
      while i < procs.Length
        invariant 0 <= i <= procs.Length
        invariant forall j :: 0 <= j < i ==> procs[j] == Wake(old(procs[..]), c)[j]
        invariant forall j :: i <= j < procs.Length ==> procs[j] == old(procs[j])
      {
        if procs[i].state == SLEEPING && procs[i].chan == c {
          procs[i] := procs[i].(state := RUNNABLE);
        }
        i := i + 1;
      }
    }

    /** The locked part of allocproc. */
    method Allocproc() returns (r: Option<nat>)
      modifies this`nextpid, procs
      ensures r == FirstUnused(old(procs[..]), 0)
      ensures r.None? ==> procs[..] == old(procs[..]) && nextpid == old(nextpid)
      ensures r.Some? ==>
        && r.value < procs.Length && nextpid == old(nextpid) + 1
        && procs[..] == old(procs[..])[r.value := Embryo(old(procs[r.value]), old(nextpid), ticks)]
      ensures r.None? <==> forall i :: 0 <= i < procs.Length ==> old(procs[i]).state != UNUSED
      ensures r.Some? ==>
        && old(procs[r.value]).state == UNUSED && (forall i :: 0 <= i < r.value ==> old(procs[i]).state != UNUSED)
        && var was, p := old(procs[r.value]), procs[r.value];
        && p.state == EMBRYO && p.pid == old(nextpid) && p.ctime == ticks && p.rtime == 0 && p.etime == 0
        && p.parent == was.parent && p.chan == was.chan && p.killed == was.killed
    {
      FirstUnusedIs(procs[..], 0);
      var i := 0;
      while i < procs.Length
        invariant 0 <= i <= procs.Length && nextpid == old(nextpid)
        invariant procs[..] == old(procs[..]) && FirstUnused(procs[..], 0) == FirstUnused(procs[..], i)
      {
        if procs[i].state == UNUSED {
          procs[i] := procs[i].(state := EMBRYO);
          procs[i] := procs[i].(pid := nextpid);
          nextpid := nextpid + 1;
          procs[i] := procs[i].(ctime := ticks, rtime := 0, etime := 0);
          return Some(i);
        }
        i := i + 1;
      }
      r := None;
    }

    /** The loop of exit that gives the children of cur to init. */
    method PassChildren(cur: nat)
      modifies procs
      ensures procs[..] == PassAll(old(procs[..]), cur, procs.Length)
    {
      var i := 0;
      ghost var before := procs[..];
      while i < procs.Length
        invariant 0 <= i <= procs.Length
        invariant procs[..] == PassAll(before, cur, i)
      {
        PassOne(before, cur, i);
        if procs[i].parent == Some(cur) {
          procs[i] := procs[i].(parent := Some(INIT));
          if procs[i].state == ZOMBIE {
            Wakeup1(OfProc(INIT));
          }
        }
        i := i + 1;
      }
    }

    /** exit, from taking the lock until the process stops running. */
    method Exit(cur: nat)
      requires cur < procs.Length && procs[cur].parent.Some?
      modifies procs
      ensures procs[..] == ExitSlots(old(procs[..]), cur, ticks)
      ensures procs[cur] == old(procs[cur]).(state := ZOMBIE, etime := ticks, parent := procs[cur].parent)
      ensures forall j :: 0 <= j < procs.Length && j != cur ==>
        && procs[j].parent == (if old(procs[j]).parent == Some(cur) then Some(INIT) else old(procs[j]).parent)
        && procs[j] == old(procs[j]).(parent := procs[j].parent, state := procs[j].state)
        && procs[j].state ==
             if old(procs[j]).state == SLEEPING
                && (|| old(procs[j]).chan == OfProc(old(procs[cur]).parent.value)
                    || (old(procs[j]).chan == OfProc(INIT)
                        && exists z :: 0 <= z < procs.Length && old(procs[z]).parent == Some(cur)
                                       && old(procs[z]).state == ZOMBIE))
             then RUNNABLE else old(procs[j]).state
    {
      ghost var was := procs[..];
      Wakeup1(OfProc(procs[cur].parent.value));
      PassChildren(cur);
      ExitIsPass(old(procs[..]), cur, ticks);
      procs[cur] := procs[cur].(etime := ticks);
      procs[cur] := procs[cur].(state := ZOMBIE);
      ExitAll(was, procs[..], cur, ticks);
    }

    /** One round of wait, waitx or waitpid, up to going to sleep. */
    method Scan(cur: nat, k: WaitKind) returns (r: ScanResult)
      requires cur < procs.Length
      modifies procs
      ensures match FirstZombie(old(procs[..]), cur, k, 0)
        case Some(j) =>
          && j < procs.Length && r == Reap(old(procs[j].pid), Wtime(old(procs[j])), old(procs[j].rtime))
          && procs[..] == old(procs[..])[j := Reaped(old(procs[j]))]
        case None =>
          && procs[..] == old(procs[..])
          && r == if !HasKids(procs[..], cur, k) || procs[cur].killed then NoChild else GoToSleep
      ensures r.Reap? <==>
        exists j :: 0 <= j < procs.Length && old(procs[j]).state == ZOMBIE
                    && old(procs[j]).parent == Some(cur) && (k.Child? ==> old(procs[j]).pid == k.pid)
      ensures r.Reap? ==>
        exists j :: 0 <= j < procs.Length && Finds(old(procs[..]), cur, k, j)
                    && procs[..] == old(procs[..])[j := procs[j]] && procs[j].state == UNUSED
                    && procs[j].parent == None && procs[j].pid == 0 && !procs[j].killed
                    && r.pid == old(procs[j]).pid && r.rtime == old(procs[j]).rtime
                    && r.wtime == old(procs[j]).etime - old(procs[j]).ctime - old(procs[j]).rtime
      ensures !r.Reap? ==> procs[..] == old(procs[..])
      ensures r.GoToSleep? <==>
        && !r.Reap? && !old(procs[cur]).killed
        && exists j :: 0 <= j < procs.Length && old(procs[j]).parent == Some(cur)
                       && (k.Child? ==> old(procs[j]).pid == k.pid)
    {
      ghost var was := procs[..];
      FirstZombieIs(was, cur, k, 0);
      var havekids := false;
      var i := 0;
      while i < procs.Length
        invariant 0 <= i <= procs.Length && procs[..] == old(procs[..])
        invariant FirstZombie(procs[..], cur, k, 0) == FirstZombie(procs[..], cur, k, i)
        invariant havekids <==> exists j :: 0 <= j < i && Waited(procs[j], cur, k)
      {
        if procs[i].parent == Some(cur) && (k.Child? ==> procs[i].pid == k.pid) {
          havekids := true;
          assert Waited(procs[i], cur, k);
          if procs[i].state == ZOMBIE {
            var wtime := procs[i].etime - procs[i].ctime - procs[i].rtime;
            r := Reap(procs[i].pid, wtime, procs[i].rtime);
            procs[i] := procs[i].(pid := 0, parent := None, killed := false);
            procs[i] := procs[i].(state := UNUSED);
            FindsFirst(was, cur, k, i);
            return;
          }
        }
        i := i + 1;
      }
      assert havekids <==> HasKids(procs[..], cur, k) by {
        if HasKids(procs[..], cur, k) {
          var j :| 0 <= j < |procs[..]| && Waited(procs[..][j], cur, k);
          assert Waited(procs[j], cur, k);
        }
        if havekids {
          var j :| 0 <= j < procs.Length && Waited(procs[j], cur, k);
          assert Waited(procs[..][j], cur, k);
        }
      }
      r := if !havekids || procs[cur].killed then NoChild else GoToSleep;
    }

    method Kill(pid: nat) returns (r: int)
      modifies procs
      ensures match FirstPid(old(procs[..]), pid, 0)
        case Some(j) => r == 0 && j < procs.Length && procs[..] == old(procs[..])[j := Killed(old(procs[j]))]
        case None => r == -1 && procs[..] == old(procs[..])
      ensures r == 0 || r == -1
      ensures r == 0 <==> exists j :: 0 <= j < procs.Length && old(procs[j]).pid == pid
      ensures r == 0 ==>
        exists j :: 0 <= j < procs.Length && HasPid(old(procs[..]), pid, j) && procs[j].killed
                    && procs[j].state == (if old(procs[j]).state == SLEEPING then RUNNABLE else old(procs[j]).state)
                    && procs[j] == old(procs[j]).(killed := true, state := procs[j].state)
                    && forall i :: 0 <= i < procs.Length && i != j ==> procs[i] == old(procs[i])
      ensures r == -1 ==> procs[..] == old(procs[..])
    {
      ghost var was := procs[..];
      FirstPidIs(was, pid, 0);
      var i := 0;
      while i < procs.Length
        invariant 0 <= i <= procs.Length && procs[..] == old(procs[..])
        invariant FirstPid(procs[..], pid, 0) == FirstPid(procs[..], pid, i)
      {
        if procs[i].pid == pid {
          procs[i] := procs[i].(killed := true);
          if procs[i].state == SLEEPING {
            procs[i] := procs[i].(state := RUNNABLE);
          }
          HasPidFirst(was, pid, i);
          return 0;
        }
        i := i + 1;
      }
      r := -1;
    }

    method UpdateRtime()
      modifies procs
      ensures procs[..] == Charge(old(procs[..]))
      ensures forall i :: 0 <= i < procs.Length ==>
        procs[i] == if old(procs[i]).state == RUNNING then old(procs[i]).(rtime := old(procs[i]).rtime + 1)
                    else old(procs[i])
    {
      var i := 0;
      while i < procs.Length
        invariant 0 <= i <= procs.Length
        invariant forall j :: 0 <= j < i ==> procs[j] == Charge(old(procs[..]))[j]
        invariant forall j :: i <= j < procs.Length ==> procs[j] == old(procs[j])
      {
        if procs[i].state == RUNNING {
          procs[i] := procs[i].(rtime := procs[i].rtime + 1);
        }
        i := i + 1;
      }
    }
  }

  /** A zombie child of cur is among the first k slots. */
  predicate ZombieKid(procs: seq<Proc>, cur: nat, k: nat)
    requires k <= |procs|
  {
    exists j :: 0 <= j < k && procs[j].parent == Some(cur) && procs[j].state.ZOMBIE?
  }

  /** The table after exit's loop has passed the first k slots. */
  function PassAll(procs: seq<Proc>, cur: nat, k: nat): (r: seq<Proc>)
    requires k <= |procs|
    ensures |r| == |procs|
  {
    var w := if ZombieKid(procs, cur, k) then Wake(procs, OfProc(INIT)) else procs;
    seq(|procs|, j requires 0 <= j < |procs| =>
          if j < k && procs[j].parent == Some(cur) then w[j].(parent := Some(INIT)) else w[j])
  }

  lemma PassOne(procs: seq<Proc>, cur: nat, i: nat)
    requires i < |procs|
    ensures PassAll(procs, cur, 0) == procs
    ensures var r := PassAll(procs, cur, i);
      && r[i].parent == procs[i].parent && (r[i].state.ZOMBIE? <==> procs[i].state.ZOMBIE?)
      && (if procs[i].parent != Some(cur) then PassAll(procs, cur, i + 1) == r
          else if !procs[i].state.ZOMBIE? then PassAll(procs, cur, i + 1) == r[i := r[i].(parent := Some(INIT))]
          else PassAll(procs, cur, i + 1) == Wake(r[i := r[i].(parent := Some(INIT))], OfProc(INIT)))
  {
    assert ZombieKid(procs, cur, i + 1) <==>
             ZombieKid(procs, cur, i) || (procs[i].parent == Some(cur) && procs[i].state.ZOMBIE?);
  }

  lemma ExitAll(was: seq<Proc>, now: seq<Proc>, cur: nat, ticks: nat)
    requires cur < |was| && was[cur].parent.Some? && now == ExitSlots(was, cur, ticks)
    ensures now[cur] == was[cur].(state := ZOMBIE, etime := ticks, parent := now[cur].parent)
    ensures forall j :: 0 <= j < |was| && j != cur ==>
      && now[j].parent == (if was[j].parent == Some(cur) then Some(INIT) else was[j].parent)
      && now[j] == was[j].(parent := now[j].parent, state := now[j].state)
      && now[j].state ==
           if was[j].state == SLEEPING
              && (|| was[j].chan == OfProc(was[cur].parent.value)
                  || (was[j].chan == OfProc(INIT) && LeavesZombie(was, cur)))
           then RUNNABLE else was[j].state
  {
    hide ExitSlots, LeavesZombie;
    ExitSlot(was, cur, ticks, cur);
    forall j | 0 <= j < |was| && j != cur
      ensures now[j].parent == (if was[j].parent == Some(cur) then Some(INIT) else was[j].parent)
      ensures now[j] == was[j].(parent := now[j].parent, state := now[j].state)
      ensures now[j].state ==
        if was[j].state == SLEEPING
           && (was[j].chan == OfProc(was[cur].parent.value) || (was[j].chan == OfProc(INIT) && LeavesZombie(was, cur)))
        then RUNNABLE else was[j].state
    {
      ExitSlot(was, cur, ticks, j);
    }
  }

  lemma ExitIsPass(procs: seq<Proc>, cur: nat, ticks: nat)
    requires cur < |procs| && procs[cur].parent.Some?
    ensures var r := PassAll(Wake(procs, OfProc(procs[cur].parent.value)), cur, |procs|);
      ExitSlots(procs, cur, ticks) == r[cur := r[cur].(etime := ticks, state := ZOMBIE)]
  {
    var w := Wake(procs, OfProc(procs[cur].parent.value));
    assert ZombieKid(w, cur, |procs|) <==> LeavesZombie(procs, cur) by {
      forall j | 0 <= j < |procs|
        ensures w[j].parent == procs[j].parent && (w[j].state.ZOMBIE? <==> procs[j].state.ZOMBIE?)
      {
      }
    }
  }
}
