/**
 Sleep locks and user mutexes: any number of processes step through acquiring, sleeping, being
 woken, releasing and asking who holds the lock. Every test and every assignment of a field of
 the lock is a step of its own, so that only the two spin locks keep processes apart. Both kinds
 of lock run the same code but for two things: a mutex is released only by its holder, and it
 wakes sleepers after it gives up its spin lock, a sleep lock before.
 */
module SleepLock {
  import opened Wrappers

  datatype Kind = Sleeplock | Mutex

  /** Where a process is. */
  datatype Pc =
    | Idle       // in none of the calls
    | Spin       // acquire: wants the spin lock
    | Test       // has the spin lock, about to look at locked
    | SleepPt    // saw it locked; sleep: wants ptable.lock
    | SleepRel   // has both, about to release the spin lock
    | SleepSet   // has ptable.lock, about to mark itself asleep
    | Asleep     // SLEEPING on the lock
    | Woken      // RUNNABLE, not yet run
    | Resumed    // runs again inside sleep, with ptable.lock
    | TakeLocked // saw it free, about to set locked
    | TakePid    // about to set pid
    | Taken      // about to release the spin lock and return
    | RelSpin    // release: wants the spin lock
    | RelTest    // mutex: about to look at locked
    | RelWho     // mutex: saw it locked, about to look at pid
    | Refused    // mutex: not the holder, about to release the spin lock
    | RelLocked  // about to clear locked
    | RelPid     // about to clear pid
    | Freed      // mutex: about to release the spin lock
    | Waking     // wakeup: wants ptable.lock
    | WakeHold   // has ptable.lock, about to wake the sleepers
    | WakeDone   // has woken them, about to release ptable.lock
    | Last       // sleep lock: about to release the spin lock
    | AskSpin    // holdingsleep: wants the spin lock
    | AskLocked  // about to look at locked
    | AskPid     // saw it locked, about to look at pid
    | Asked(r: bool)  // has the answer r, about to release the spin lock

  datatype PtOwner = Free | Sched | By(p: nat)

  /** The lock, the two spin locks, the processes, and who has acquired and not released it. */
  datatype State = State(kind: Kind, locked: bool, pid: Option<nat>, lk: Option<nat>, pt: PtOwner,
                         pc: map<nat, Pc>, holders: set<nat>)

  function At(s: State, p: nat): (c: Pc) {
    if p in s.pc then s.pc[p] else Idle
  }

  function Go(s: State, p: nat, c: Pc): (t: State) {
    s.(pc := s.pc[p := c])
  }

  /** The places where a process has the spin lock of the lock. */
  predicate HasLk(k: Kind, c: Pc) {
    || c.Test? || c.SleepPt? || c.SleepRel? || c.TakeLocked? || c.TakePid? || c.Taken?
    || c.RelTest? || c.RelWho? || c.Refused? || c.RelLocked? || c.RelPid? || c.Freed? || c.Last?
    || c.AskLocked? || c.AskPid? || c.Asked?
    || (k.Sleeplock? && (c.Waking? || c.WakeHold? || c.WakeDone?))
  }

  /** The places where a process has ptable.lock. */
  predicate HasPt(c: Pc) {
    c.SleepRel? || c.SleepSet? || c.Resumed? || c.WakeHold? || c.WakeDone?
  }

  /** The places that exist for one kind of lock only. */
  predicate RightKind(k: Kind, c: Pc) {
    && (k.Sleeplock? ==> !c.RelTest? && !c.RelWho? && !c.Refused? && !c.Freed?)
    && (k.Mutex? ==> !c.Last?)
  }

  datatype Event =
    | StartAcquire(p: nat)
    | StartRelease(p: nat)
    | StartAsk(p: nat)
    | Step(p: nat)
    | Kill(p: nat)
    | SchedTakes
    | SchedGives
    | SchedRuns(p: nat)

  /** A sleep lock is released by its holder; anyone may call mutex_unlock. */
  ghost predicate Enabled(s: State, e: Event) {
    match e
    case StartAcquire(p) => At(s, p).Idle?
    case StartRelease(p) => At(s, p).Idle? && (s.kind.Sleeplock? ==> p in s.holders)
    case StartAsk(p) => At(s, p).Idle?
    case Kill(p) => s.pt.Free?
    case SchedTakes => s.pt.Free?
    case SchedGives => s.pt.Sched?
    case SchedRuns(p) => s.pt.Sched? && At(s, p).Woken?
    case Step(p) =>
      match At(s, p)
      case Idle | Asleep | Woken => false
      case Spin | RelSpin | AskSpin => s.lk.None?
      case SleepPt | Waking => s.pt.Free?
      case _ => true
  }

  /** Everyone asleep becomes runnable. */
  function WakeAll(pc: map<nat, Pc>): (r: map<nat, Pc>) {
    map p | p in pc :: if pc[p].Asleep? then Woken else pc[p]
  }

  function Do(s: State, e: Event): (t: State)
    requires Enabled(s, e)
  {
    match e
    case StartAcquire(p) => Go(s, p, Spin)
    case StartRelease(p) => Go(s, p, RelSpin)
    case StartAsk(p) => Go(s, p, AskSpin)
    case Kill(p) => if At(s, p).Asleep? then Go(s, p, Woken) else s
    case SchedTakes => s.(pt := Sched)
    case SchedGives => s.(pt := Free)
    case SchedRuns(p) => Go(s, p, Resumed).(pt := By(p))
    case Step(p) => Advance(s, p, At(s, p))
  }

  /** One step of a process: at most one field of the lock is read or written. */
  function Advance(s: State, p: nat, c: Pc): (t: State) {
    match c
    case Spin => Go(s, p, Test).(lk := Some(p))
    case Test => Go(s, p, if s.locked then SleepPt else TakeLocked)
    case TakeLocked => Go(s, p, TakePid).(locked := true)
    case TakePid => Go(s, p, Taken).(pid := Some(p))
    case Taken => Go(s, p, Idle).(lk := None, holders := s.holders + {p})
    case SleepPt => Go(s, p, SleepRel).(pt := By(p))
    case SleepRel => Go(s, p, SleepSet).(lk := None)
    case SleepSet => Go(s, p, Asleep).(pt := Sched)
    case Resumed => Go(s, p, Spin).(pt := Free)
    case RelSpin => Go(s, p, if s.kind.Mutex? then RelTest else RelLocked).(lk := Some(p))
    case RelTest => Go(s, p, if s.locked then RelWho else Refused)
    case RelWho => Go(s, p, if s.pid == Some(p) then RelLocked else Refused)
    case Refused => Go(s, p, Idle).(lk := None)
    case RelLocked => Go(s, p, RelPid).(locked := false, holders := s.holders - {p})
    case RelPid => Go(s, p, if s.kind.Mutex? then Freed else Waking).(pid := None)
    case Freed => Go(s, p, Waking).(lk := None)
    case Waking => Go(s, p, WakeHold).(pt := By(p))
    case WakeHold => s.(pc := WakeAll(s.pc)[p := WakeDone])
    case WakeDone => Go(s, p, if s.kind.Mutex? then Idle else Last).(pt := Free)
    case Last => Go(s, p, Idle).(lk := None)
    case AskSpin => Go(s, p, AskLocked).(lk := Some(p))
    case AskLocked => Go(s, p, if s.locked then AskPid else Asked(false))
    case AskPid => Go(s, p, Asked(s.pid == Some(p)))
    case Asked(_) => Go(s, p, Idle).(lk := None)
    case Idle | Asleep | Woken => s
  }

  // ---------------------------------------------------------------- invariants

  /** The spin locks are held by exactly the processes at places that hold them. */
  ghost predicate SpinInv(s: State) {
    && (forall p: nat :: HasLk(s.kind, At(s, p)) <==> s.lk == Some(p))
    && (forall p: nat :: HasPt(At(s, p)) <==> s.pt == By(p))
    && (forall p: nat :: RightKind(s.kind, At(s, p)))
  }

  /** Process p has the lock: it has acquired it, or is past setting locked. */
  ghost predicate Owns(s: State, p: nat) {
    p in s.holders || At(s, p).TakePid? || At(s, p).Taken?
  }

  /** The places where what a process has read of the lock must still be so. */
  ghost predicate HasRead(s: State, p: nat) {
    match At(s, p)
    case TakeLocked => !s.locked
    case RelWho => s.locked
    case AskPid => s.locked
    case RelSpin => s.kind.Mutex? || p in s.holders
    case RelLocked => p in s.holders
    case RelPid => !s.locked && p !in s.holders
    case Refused | Freed | Waking | WakeHold | WakeDone | Last => p !in s.holders
    case Asked(r) => r <==> p in s.holders
    case _ => true
  }

  /** One owner at most; locked says whether there is one, and pid who, but while it is being set. */
  ghost predicate HoldInv(s: State) {
    && (forall p: nat, q: nat :: Owns(s, p) && Owns(s, q) ==> p == q)
    && (forall p: nat :: Owns(s, p) ==> s.locked)
    && (s.locked ==> exists p: nat :: Owns(s, p))
    && (forall p: nat :: Owns(s, p) && !At(s, p).TakePid? ==> s.pid == Some(p))
    && (forall p: nat :: HasRead(s, p))
  }

  /** The places where a process has freed the lock and still has to wake the sleepers. */
  predicate Pends(c: Pc) {
    c.RelPid? || c.Freed? || c.Waking? || c.WakeHold?
  }

  /** Somebody has freed the lock and not yet woken the sleepers. */
  ghost predicate WakePending(s: State) {
    exists q: nat :: Pends(At(s, q))
  }

  /** A sleeper, or one about to sleep, has a locked lock or a wakeup to look forward to. */
  ghost predicate SleepInv(s: State) {
    && (forall p: nat :: At(s, p).SleepPt? || At(s, p).SleepRel? ==> s.locked)
    && (forall p: nat :: At(s, p).SleepSet? || At(s, p).Asleep? ==> s.locked || WakePending(s))
  }

  ghost predicate Inv(s: State) {
    SpinInv(s) && HoldInv(s) && SleepInv(s)
  }

  // ---------------------------------------------------------------- the spin locks

  /** The spin lock after process p goes to place c: taken, given up or left alone by p. */
  ghost predicate LkMoves(s: State, t: State, p: nat, c: Pc) {
    && (HasLk(s.kind, c) <==> t.lk == Some(p))
    && (if HasLk(s.kind, At(s, p)) then t.lk == Some(p) || t.lk == None
        else t.lk == s.lk || (s.lk == None && t.lk == Some(p)))
  }

  ghost predicate PtMoves(s: State, t: State, p: nat, c: Pc) {
    && (HasPt(c) <==> t.pt == By(p))
    && (if HasPt(At(s, p)) then t.pt == By(p) || t.pt == Free || t.pt == Sched
        else t.pt == s.pt || ((s.pt == Free || s.pt == Sched) && t.pt == By(p)))
  }

  /** Process p moves to place c; others stay, or wake up. */
  ghost predicate Moves(s: State, t: State, p: nat, c: Pc) {
    && t.kind == s.kind && At(t, p) == c && LkMoves(s, t, p, c) && PtMoves(s, t, p, c) && RightKind(s.kind, c)
    && (forall q: nat :: q != p ==> At(t, q) == At(s, q) || (At(s, q).Asleep? && At(t, q).Woken?))
  }

  lemma MovesSpin(s: State, t: State, p: nat, c: Pc)
    requires SpinInv(s) && Moves(s, t, p, c)
    ensures SpinInv(t)
  {
    hide LkMoves, PtMoves;
    forall q: nat ensures (HasLk(t.kind, At(t, q)) <==> t.lk == Some(q)) && (HasPt(At(t, q)) <==> t.pt == By(q)) {
      MovesOne(s, t, p, c, q);
    }
    forall q: nat ensures RightKind(t.kind, At(t, q)) {
      assert RightKind(s.kind, At(s, q));
    }
  }

  lemma MovesOne(s: State, t: State, p: nat, c: Pc, q: nat)
    requires SpinInv(s) && Moves(s, t, p, c)
    ensures (HasLk(t.kind, At(t, q)) <==> t.lk == Some(q)) && (HasPt(At(t, q)) <==> t.pt == By(q))
  {
    assert HasLk(s.kind, At(s, q)) <==> s.lk == Some(q);
    assert HasPt(At(s, q)) <==> s.pt == By(q);
    assert HasLk(s.kind, At(s, p)) <==> s.lk == Some(p);
    assert HasPt(At(s, p)) <==> s.pt == By(p);
  }

  /** A step changes the place of one process, unless it wakes all sleepers. */
  lemma OthersStay(s: State, p: nat, q: nat)
    requires Enabled(s, Step(p)) && q != p
    ensures var t := Do(s, Step(p));
      At(t, q) == if At(s, p).WakeHold? && At(s, q).Asleep? then Woken else At(s, q)
  {
  }

  lemma OwnLk(s: State, p: nat)
    requires Enabled(s, Step(p)) && RightKind(s.kind, At(s, p)) && (HasLk(s.kind, At(s, p)) <==> s.lk == Some(p))
    ensures var t := Do(s, Step(p)); t.kind == s.kind && LkMoves(s, t, p, At(t, p)) && RightKind(s.kind, At(t, p))
  {
  }

  lemma OwnPt(s: State, p: nat)
    requires Enabled(s, Step(p)) && (HasPt(At(s, p)) <==> s.pt == By(p))
    ensures var t := Do(s, Step(p)); PtMoves(s, t, p, At(t, p))
  {
  }

  lemma StepMoves(s: State, p: nat)
    requires SpinInv(s) && Enabled(s, Step(p))
    ensures Moves(s, Do(s, Step(p)), p, At(Do(s, Step(p)), p))
  {
    hide HasLk, HasPt, LkMoves, PtMoves, RightKind, Do, Enabled;
    OwnLk(s, p);
    OwnPt(s, p);
    var t := Do(s, Step(p));
    forall q: nat | q != p ensures At(t, q) == At(s, q) || (At(s, q).Asleep? && At(t, q).Woken?) {
      OthersStay(s, p, q);
    }
  }

  lemma KeepsSpin(s: State, e: Event)
    requires SpinInv(s) && Enabled(s, e)
    ensures SpinInv(Do(s, e))
  {
    var t := Do(s, e);
    if e.Step? {
      hide SpinInv, Moves;
      StepMoves(s, e.p);
      MovesSpin(s, t, e.p, At(t, e.p));
    } else {
      KeepsSpinOther(s, e);
    }
  }

  lemma KeepsSpinOther(s: State, e: Event)
    requires SpinInv(s) && Enabled(s, e) && !e.Step?
    ensures SpinInv(Do(s, e))
  {
    var t := Do(s, e);
    forall q: nat
      ensures HasLk(t.kind, At(t, q)) <==> t.lk == Some(q)
      ensures (HasPt(At(t, q)) <==> t.pt == By(q)) && RightKind(t.kind, At(t, q))
    {
      assert HasLk(s.kind, At(s, q)) <==> s.lk == Some(q);
      assert HasPt(At(s, q)) <==> s.pt == By(q);
      assert RightKind(s.kind, At(s, q));
    }
  }

  // ---------------------------------------------------------------- the lock

  /** Without the spin lock a step leaves the lock's fields and the holders alone. */
  lemma NoLkNoChange(s: State, p: nat)
    requires SpinInv(s) && Enabled(s, Step(p)) && s.lk != Some(p)
    ensures var t := Do(s, Step(p));
      t.locked == s.locked && t.pid == s.pid && t.holders == s.holders && t.kind == s.kind
  {
    assert HasLk(s.kind, At(s, p)) <==> s.lk == Some(p);
  }

  /** What another process has read of the lock stays so: it has the spin lock. */
  lemma OthersRead(s: State, p: nat, q: nat)
    requires SpinInv(s) && HoldInv(s) && Enabled(s, Step(p)) && q != p
    ensures HasRead(Do(s, Step(p)), q)
  {
    hide HoldInv;
    OthersStay(s, p, q);
    assert HasRead(s, q) by { ReadOf(s, q); }
    assert HasLk(s.kind, At(s, q)) <==> s.lk == Some(q);
    if s.lk != Some(p) {
      NoLkNoChange(s, p);
    }
  }

  lemma ReadOf(s: State, q: nat)
    requires HoldInv(s)
    ensures HasRead(s, q)
  {
  }

  /** While p has the spin lock and is not taking the lock, an owner has acquired it, and pid names it. */
  lemma OwnerIs(s: State, p: nat)
    requires SpinInv(s) && HoldInv(s) && s.lk == Some(p) && !At(s, p).TakePid? && !At(s, p).Taken?
    ensures !s.locked ==> s.holders == {}
    ensures s.locked ==> exists q: nat :: s.holders == {q} && s.pid == Some(q)
  {
    forall q: nat ensures Owns(s, q) <==> q in s.holders {
      assert HasLk(s.kind, At(s, q)) <==> s.lk == Some(q);
    }
    if s.locked {
      var q: nat :| Owns(s, q);
      assert HasLk(s.kind, At(s, q)) <==> s.lk == Some(q);
      assert s.holders == {q} && s.pid == Some(q);
    } else {
      assert forall q: nat :: q !in s.holders;
    }
  }

  /** What the stepping process itself has read. */
  lemma OwnRead(s: State, p: nat)
    requires SpinInv(s) && HoldInv(s) && Enabled(s, Step(p))
    ensures HasRead(Do(s, Step(p)), p)
  {
    ReadOf(s, p);
    assert HasLk(s.kind, At(s, p)) <==> s.lk == Some(p);
    if s.lk == Some(p) && !At(s, p).TakePid? && !At(s, p).Taken? {
      OwnerIs(s, p);
    }
    hide HoldInv, SpinInv;
  }

  /** Who owns the lock after a step. */
  lemma OwnsAfter(s: State, p: nat, q: nat)
    requires SpinInv(s) && HoldInv(s) && Enabled(s, Step(p))
    ensures var t := Do(s, Step(p));
      Owns(t, q) <==> (Owns(s, q) && !(q == p && At(s, p).RelLocked?)) || (q == p && At(s, p).TakeLocked?)
  {
    if q != p {
      OthersStay(s, p, q);
    }
    assert HasLk(s.kind, At(s, p)) <==> s.lk == Some(p);
    ReadOf(s, p);
  }

  lemma StepKeepsHold(s: State, p: nat)
    requires SpinInv(s) && HoldInv(s) && Enabled(s, Step(p))
    ensures HoldInv(Do(s, Step(p)))
  {
    var t := Do(s, Step(p));
    forall q: nat ensures HasRead(t, q) {
      if q == p {
        OwnRead(s, p);
      } else {
        OthersRead(s, p, q);
      }
    }
    StepOwners(s, p);
    hide HasRead;
  }

  /** Which steps make and unmake an owner, as OwnsAfter says of every process. */
  ghost predicate NewOwners(s: State, t: State, p: nat) {
    forall q: nat :: Owns(t, q) <==>
      (Owns(s, q) && !(q == p && At(s, p).RelLocked?)) || (q == p && At(s, p).TakeLocked?)
  }

  lemma StepFields(s: State, p: nat)
    requires Enabled(s, Step(p))
    ensures var t := Do(s, Step(p));
      && t.locked == (if At(s, p).TakeLocked? then true else if At(s, p).RelLocked? then false else s.locked)
      && t.pid == (if At(s, p).TakePid? then Some(p) else if At(s, p).RelPid? then None else s.pid)
      && (At(s, p).TakeLocked? ==> At(t, p).TakePid?)
  {
  }

  lemma StepOwners(s: State, p: nat)
    requires SpinInv(s) && HoldInv(s) && Enabled(s, Step(p))
    ensures var t := Do(s, Step(p));
      && (forall q: nat, r: nat :: Owns(t, q) && Owns(t, r) ==> q == r)
      && (forall q: nat :: Owns(t, q) ==> t.locked)
      && (t.locked ==> exists q: nat :: Owns(t, q))
      && (forall q: nat :: Owns(t, q) && !At(t, q).TakePid? ==> t.pid == Some(q))
  {
    hide Do, Enabled, Owns;
    var t := Do(s, Step(p));
    StepFields(s, p);
    forall q: nat
      ensures Owns(t, q) <==> (Owns(s, q) && !(q == p && At(s, p).RelLocked?)) || (q == p && At(s, p).TakeLocked?)
      ensures q != p && At(s, q).TakePid? ==> At(t, q).TakePid?
    {
      OwnsAfter(s, p, q);
      if q != p {
        OthersStay(s, p, q);
      }
    }
    StepOwner(s, t, p);
    StepPid(s, t, p);
  }

  /** pid names the owner. */
  lemma StepPid(s: State, t: State, p: nat)
    requires HoldInv(s) && NewOwners(s, t, p)
    requires t.pid == (if At(s, p).TakePid? then Some(p) else if At(s, p).RelPid? then None else s.pid)
    requires At(s, p).TakeLocked? ==> At(t, p).TakePid?
    requires forall q: nat :: q != p && At(s, q).TakePid? ==> At(t, q).TakePid?
    ensures forall q: nat :: Owns(t, q) && !At(t, q).TakePid? ==> t.pid == Some(q)
  {
    ReadOf(s, p);
    assert At(s, p).TakePid? ==> Owns(s, p);
    hide Owns;
    forall q: nat | Owns(t, q) && !At(t, q).TakePid? ensures t.pid == Some(q) {
      assert Owns(s, q);
    }
  }

  /** There is an owner exactly if locked is set. */
  lemma StepOwner(s: State, t: State, p: nat)
    requires HoldInv(s) && NewOwners(s, t, p)
    requires t.locked == (if At(s, p).TakeLocked? then true else if At(s, p).RelLocked? then false else s.locked)
    ensures forall q: nat, r: nat :: Owns(t, q) && Owns(t, r) ==> q == r
    ensures forall q: nat :: Owns(t, q) ==> t.locked
    ensures t.locked ==> exists q: nat :: Owns(t, q)
  {
    ReadOf(s, p);
    assert At(s, p).RelLocked? ==> Owns(s, p);
    hide Owns;
    if At(s, p).TakeLocked? {
      assert Owns(t, p);
    } else if t.locked {
      var q: nat :| Owns(s, q);
      assert Owns(t, q);
    }
  }

  lemma OtherKeepsHold(s: State, e: Event)
    requires SpinInv(s) && HoldInv(s) && Enabled(s, e) && !e.Step?
    ensures HoldInv(Do(s, e))
  {
    var t := Do(s, e);
    forall q: nat ensures (Owns(t, q) <==> Owns(s, q)) && (At(t, q).TakePid? <==> At(s, q).TakePid?) && HasRead(t, q) {
      ReadOf(s, q);
    }
    if t.locked {
      var q: nat :| Owns(s, q);
      assert Owns(t, q);
    }
  }

  lemma KeepsHold(s: State, e: Event)
    requires SpinInv(s) && HoldInv(s) && Enabled(s, e)
    ensures HoldInv(Do(s, e))
  {
    hide SpinInv, HoldInv, Do, Enabled;
    if e.Step? {
      StepKeepsHold(s, e.p);
    } else {
      OtherKeepsHold(s, e);
    }
  }

  // ---------------------------------------------------------------- sleepers

  /** A pending wakeup stays pending until its owner has woken everyone. */
  lemma PendingStays(s: State, e: Event)
    requires Enabled(s, e) && WakePending(s) && !(e.Step? && At(s, e.p).WakeHold?)
    ensures WakePending(Do(s, e))
  {
    var q: nat :| Pends(At(s, q));
    var t := Do(s, e);
    if e.Step? && q != e.p {
      OthersStay(s, e.p, q);
    }
    assert Pends(At(t, q));
  }

  lemma WakeKeepsSleep(s: State, p: nat)
    requires SpinInv(s) && SleepInv(s) && Enabled(s, Step(p)) && At(s, p).WakeHold?
    ensures SleepInv(Do(s, Step(p)))
  {
    var t := Do(s, Step(p));
    forall q: nat
      ensures !At(t, q).Asleep? && !At(t, q).SleepSet?
      ensures At(t, q).SleepPt? || At(t, q).SleepRel? ==> t.locked
    {
      if q != p {
        OthersStay(s, p, q);
        assert HasPt(At(s, q)) <==> s.pt == By(q);
        assert HasPt(At(s, p)) <==> s.pt == By(p);
      }
    }
  }

  lemma KeepsSleep(s: State, e: Event)
    requires SpinInv(s) && SleepInv(s) && Enabled(s, e)
    ensures SleepInv(Do(s, e))
  {
    hide Do, WakePending;
    if e.Step? && At(s, e.p).WakeHold? {
      WakeKeepsSleep(s, e.p);
    } else {
      var t := Do(s, e);
      if WakePending(s) {
        PendingStays(s, e);
      }
      forall q: nat
        ensures At(t, q).SleepPt? || At(t, q).SleepRel? ==> t.locked
        ensures At(t, q).SleepSet? || At(t, q).Asleep? ==> t.locked || WakePending(t)
      {
        SleeperKept(s, e, q);
      }
    }
  }

  /** One process, one step that wakes nobody. */
  lemma SleeperKept(s: State, e: Event, q: nat)
    requires SpinInv(s) && SleepInv(s) && Enabled(s, e) && !(e.Step? && At(s, e.p).WakeHold?)
    requires WakePending(s) ==> WakePending(Do(s, e))
    ensures var t := Do(s, e);
      && (At(t, q).SleepPt? || At(t, q).SleepRel? ==> t.locked)
      && (At(t, q).SleepSet? || At(t, q).Asleep? ==> t.locked || WakePending(t))
  {
    if e.Step? {
      StepSleeperKept(s, e.p, q);
    } else {
      assert At(s, q).SleepPt? || At(s, q).SleepRel? ==> s.locked;
      assert At(s, q).SleepSet? || At(s, q).Asleep? ==> s.locked || WakePending(s);
    }
  }

  lemma StepSleeperKept(s: State, p: nat, q: nat)
    requires SpinInv(s) && SleepInv(s) && Enabled(s, Step(p)) && !At(s, p).WakeHold?
    requires WakePending(s) ==> WakePending(Do(s, Step(p)))
    ensures var t := Do(s, Step(p));
      && (At(t, q).SleepPt? || At(t, q).SleepRel? ==> t.locked)
      && (At(t, q).SleepSet? || At(t, q).Asleep? ==> t.locked || WakePending(t))
  {
    hide Do, WakePending, Enabled;
    assert HasLk(s.kind, At(s, q)) <==> s.lk == Some(q);
    assert HasLk(s.kind, At(s, p)) <==> s.lk == Some(p);
    StepFields(s, p);
    if q != p {
      OthersStay(s, p, q);
    } else {
      SleepPath(s, q);
    }
    if At(s, p).RelLocked? {
      FreedPends(s, p);
    }
  }

  /** How a process comes to sleep. */
  lemma SleepPath(s: State, p: nat)
    requires Enabled(s, Step(p))
    ensures var c, d := At(s, p), At(Do(s, Step(p)), p);
      && (d.SleepPt? ==> c.Test? && s.locked) && (d.SleepRel? ==> c.SleepPt?)
      && (d.SleepSet? ==> c.SleepRel?) && (d.Asleep? ==> c.SleepSet?)
  {
  }

  lemma FreedPends(s: State, p: nat)
    requires Enabled(s, Step(p)) && At(s, p).RelLocked?
    ensures WakePending(Do(s, Step(p)))
  {
    assert Pends(At(Do(s, Step(p)), p));
  }

  // ---------------------------------------------------------------- what the calls decide

  /** The tests of the code against who holds the lock, and the steps that change it. */
  lemma Decides(s: State, p: nat)
    requires SpinInv(s) && HoldInv(s) && Enabled(s, Step(p))
    ensures var c, t := At(s, p), Do(s, Step(p));
      && (c.Test? ==> At(t, p) == if s.holders == {} then TakeLocked else SleepPt)
      && (c.RelTest? && p in s.holders ==> At(t, p) == RelWho)
      && (c.RelWho? ==> At(t, p) == if p in s.holders then RelLocked else Refused)
      && (c.WakeHold? ==> forall q: nat :: !At(t, q).Asleep?)
      && t.holders == (if c.Taken? then s.holders + {p} else if c.RelLocked? then s.holders - {p} else s.holders)
  {
    ReadOf(s, p);
    assert HasLk(s.kind, At(s, p)) <==> s.lk == Some(p);
    if s.lk == Some(p) && !At(s, p).TakePid? && !At(s, p).Taken? {
      OwnerIs(s, p);
    }
    hide HoldInv, SpinInv;
  }

  // ---------------------------------------------------------------- every run

  /** A lock nobody has used yet. */
  function Unused(kind: Kind): (s: State) {
    State(kind, false, None, None, Free, map[], {})
  }

  ghost predicate Runs(s: State, es: seq<Event>)
    decreases |es|
  {
    es == [] || (Enabled(s, es[0]) && Runs(Do(s, es[0]), es[1..]))
  }

  ghost function End(s: State, es: seq<Event>): (t: State)
    requires Runs(s, es)
    decreases |es|
  {
    if es == [] then s else End(Do(s, es[0]), es[1..])
  }

  lemma {:induction false} RunsKeep(s: State, es: seq<Event>)
    requires Inv(s) && Runs(s, es)
    ensures Inv(End(s, es))
    decreases |es|
  {
    hide SpinInv, HoldInv, SleepInv, Do, Enabled;
    if es != [] {
      KeepsSpin(s, es[0]);
      KeepsHold(s, es[0]);
      KeepsSleep(s, es[0]);
      RunsKeep(Do(s, es[0]), es[1..]);
    }
  }

  lemma EveryRun(kind: Kind, es: seq<Event>)
    requires Runs(Unused(kind), es)
    ensures Inv(End(Unused(kind), es))
  {
    hide Runs, End;
    RunsKeep(Unused(kind), es);
  }

  /** In every run at most one process has acquired the lock and not released it. */
  lemma MutualExclusion(kind: Kind, es: seq<Event>, p: nat, q: nat)
    requires Runs(Unused(kind), es) && p in End(Unused(kind), es).holders
    ensures q in End(Unused(kind), es).holders <==> q == p
  {
    EveryRun(kind, es);
    hide Runs, End;
    var s := End(Unused(kind), es);
    assert Owns(s, p) && (q in s.holders ==> Owns(s, q));
  }

  /** In every run holdingsleep answers each caller whether it is the holder. */
  lemma AnswersAreExact(kind: Kind, es: seq<Event>, p: nat)
    requires Runs(Unused(kind), es) && At(End(Unused(kind), es), p).Asked?
    ensures At(End(Unused(kind), es), p).r <==> p in End(Unused(kind), es).holders
  {
    EveryRun(kind, es);
    hide Runs, End;
    ReadOf(End(Unused(kind), es), p);
  }

  /**
   In every run: whoever returns from acquiring is the holder, and the only one; whoever returns
   from releasing is not; and a release is refused only to one who is not the holder.
   */
  lemma CallsReturn(kind: Kind, es: seq<Event>, p: nat)
    requires Runs(Unused(kind), es) && Enabled(End(Unused(kind), es), Step(p))
    ensures var s := End(Unused(kind), es);
      var c, t := At(s, p), Do(s, Step(p));
      && (c.Taken? ==> At(t, p).Idle? && t.holders == {p})
      && (c.Refused? || c.WakeDone? || c.Last? ==> p !in t.holders)
      && (c.Refused? ==> At(t, p).Idle? && t.locked == s.locked && t.pid == s.pid && t.holders == s.holders)
  {
    hide Runs, End;
    EveryRun(kind, es);
    var s := End(Unused(kind), es);
    ReadOf(s, p);
    Decides(s, p);
    if At(s, p).Taken? {
      OnlyTaker(s, p);
    }
  }

  lemma OnlyTaker(s: State, p: nat)
    requires HoldInv(s) && At(s, p).Taken?
    ensures s.holders + {p} == {p}
  {
    forall q | q in s.holders ensures q == p {
      assert Owns(s, q) && Owns(s, p);
    }
  }

  /** In every run, once the lock is free and no wakeup is on its way, nobody sleeps on it. */
  lemma NoLostWakeup(kind: Kind, es: seq<Event>, p: nat)
    requires Runs(Unused(kind), es)
    requires !End(Unused(kind), es).locked && !WakePending(End(Unused(kind), es))
    ensures !At(End(Unused(kind), es), p).Asleep? && !At(End(Unused(kind), es), p).SleepSet?
  {
    EveryRun(kind, es);
  }

  /** The spin locks never deadlock: if a process waits for one, some process can step. */
  lemma NoDeadlock(kind: Kind, es: seq<Event>, p: nat)
    requires Runs(Unused(kind), es)
    requires var c := At(End(Unused(kind), es), p); !c.Idle? && !c.Asleep? && !c.Woken?
    ensures var s := End(Unused(kind), es); s.pt.Sched? || exists q: nat :: Enabled(s, Step(q))
  {
    hide Runs, End, HoldInv, SleepInv;
    EveryRun(kind, es);
    SomeoneSteps(End(Unused(kind), es), p);
  }

  lemma SomeoneSteps(s: State, p: nat)
    requires SpinInv(s) && !At(s, p).Idle? && !At(s, p).Asleep? && !At(s, p).Woken?
    ensures s.pt.Sched? || exists q: nat :: Enabled(s, Step(q))
  {
    if !s.pt.Sched? && !Enabled(s, Step(p)) {
      var q := if s.lk.Some? then s.lk.value else p;
      assert HasLk(s.kind, At(s, q)) <==> s.lk == Some(q);
      if !Enabled(s, Step(q)) {
        assert s.pt.By?;
        assert HasPt(At(s, s.pt.p)) <==> s.pt == By(s.pt.p);
        assert Enabled(s, Step(s.pt.p));
      }
    }
  }
}
