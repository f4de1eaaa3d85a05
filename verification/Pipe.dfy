/**
 Pipes. A ring of 512 bytes with counters that wrap at 2^32 is a bounded queue; and in runs of
 any number of readers and writers, which sleep and wake each other, nobody sleeps for nothing
 unless a killed writer gives up on a full pipe.
 */
module Pipe {

  const PIPESIZE := 512
  const UINT := 0x1_0000_0000

  type byte = x: int | 0 <= x < 256

  datatype WriteEnd = Written | WriteFails | WriteSleeps

  datatype ReadEnd = GotBytes(bytes: seq<byte>) | ReadFails | ReadSleeps

  function Min(a: int, b: int): (m: int) {
    if a < b then a else b
  }

  // ---------------------------------------------------------------- one turn on the queue

  /** How many of the bytes still to write fit into the queue c. */
  function Fit(c: seq<byte>, rest: seq<byte>): (k: nat)
    requires |c| <= PIPESIZE
    ensures k <= |rest| && |c| + k <= PIPESIZE
  {
    Min(PIPESIZE - |c|, |rest|)
  }

  /** How a writer's turn ends, after it has stored what fits. */
  function WriteTurn(c: seq<byte>, rest: seq<byte>, readopen: bool, killed: bool): (r: WriteEnd)
    requires |c| <= PIPESIZE
  {
    if Fit(c, rest) == |rest| then Written
    else if !readopen || killed then WriteFails
    else WriteSleeps
  }

  /** How many bytes a reader takes. */
  function ReadCount(n: nat, c: seq<byte>): (m: nat)
    ensures m <= |c| && m <= n
  {
    Min(n, |c|)
  }

  /** How a reader's turn ends. */
  function ReadTurn(c: seq<byte>, n: nat, writeopen: bool, killed: bool): (r: ReadEnd) {
    if c == [] && writeopen then if killed then ReadFails else ReadSleeps
    else GotBytes(c[..ReadCount(n, c)])
  }

  /** A read of at least one byte returns none only from an empty pipe whose writers are gone. */
  lemma ZeroMeansClosed(c: seq<byte>, n: nat, writeopen: bool, killed: bool)
    requires ReadTurn(c, n, writeopen, killed) == GotBytes([]) && n > 0
    ensures c == [] && !writeopen
  {
  }

  // ---------------------------------------------------------------- the ring

  /** a - b in unsigned 32-bit arithmetic. */
  function Minus(a: nat, b: nat): (d: nat) {
    (a + UINT - b % UINT) % UINT
  }

  /** The place in the ring of the byte k after counter a. */
  function Slot(a: nat, k: nat): (i: nat)
    ensures i < PIPESIZE
  {
    (a + k) % PIPESIZE
  }

  /** The bytes from nread up to nwrite, in the ring. */
  function Queue(data: seq<byte>, nread: nat, nwrite: nat): (c: seq<byte>)
    requires |data| == PIPESIZE && nread < UINT && nwrite < UINT
    ensures |c| == Minus(nwrite, nread)
  {
    seq(Minus(nwrite, nread), k requires 0 <= k => data[Slot(nread, k)])
  }

  /** Storing at nwrite appends. */
  lemma QueueAppend(data: seq<byte>, nread: nat, nwrite: nat, x: byte)
    requires |data| == PIPESIZE && nread < UINT && nwrite < UINT && Minus(nwrite, nread) < PIPESIZE
    ensures Queue(data[nwrite % PIPESIZE := x], nread, (nwrite + 1) % UINT) == Queue(data, nread, nwrite) + [x]
  {
    hide Minus, Slot;
    var n := Minus(nwrite, nread);
    var d := data[nwrite % PIPESIZE := x];
    MinusNext(nwrite, nread);
    SlotOf(nread, nwrite);
    forall k | 0 <= k <= n ensures d[Slot(nread, k)] == if k == n then x else data[Slot(nread, k)] {
      if k < n {
        Distinct(nread, k, n);
      }
    }
  }

  lemma MinusNext(a: nat, b: nat)
    requires a < UINT && b < UINT && Minus(a, b) < PIPESIZE
    ensures Minus((a + 1) % UINT, b) == Minus(a, b) + 1
  {
  }

  lemma SlotOf(nread: nat, nwrite: nat)
    requires nread < UINT && nwrite < UINT
    ensures Slot(nread, Minus(nwrite, nread)) == nwrite % PIPESIZE
  {
    if nwrite >= nread {
      assert Minus(nwrite, nread) == nwrite - nread;
    } else {
      assert Minus(nwrite, nread) == nwrite + UINT - nread;
      assert (nwrite + UINT) % PIPESIZE == nwrite % PIPESIZE;
    }
  }

  lemma Distinct(a: nat, j: nat, k: nat)
    requires j < k < PIPESIZE
    ensures Slot(a, j) != Slot(a, k)
  {
  }

  /** Reading at nread removes the first byte. */
  lemma QueueRemove(data: seq<byte>, nread: nat, nwrite: nat)
    requires |data| == PIPESIZE && nread < UINT && nwrite < UINT && nread != nwrite
    ensures var c := Queue(data, nread, nwrite);
      |c| > 0 && c[0] == data[nread % PIPESIZE] && Queue(data, (nread + 1) % UINT, nwrite) == c[1..]
  {
    hide Minus, Slot;
    var c := Queue(data, nread, nwrite);
    var n := (nread + 1) % UINT;
    MinusLess(nwrite, nread);
    FirstSlot(nread);
    forall k | 0 <= k < |c| - 1 ensures data[Slot(n, k)] == data[Slot(nread, k + 1)] {
      NextSlot(nread, k);
    }
  }

  lemma FirstSlot(nread: nat)
    ensures Slot(nread, 0) == nread % PIPESIZE
  {
  }

  lemma MinusLess(a: nat, b: nat)
    requires a < UINT && b < UINT && a != b
    ensures Minus(a, b) > 0 && Minus(a, (b + 1) % UINT) == Minus(a, b) - 1
  {
    if a > b {
      assert Minus(a, b) == a - b;
    } else {
      assert Minus(a, b) == a + UINT - b;
    }
  }

  lemma NextSlot(nread: nat, k: nat)
    requires nread < UINT
    ensures Slot((nread + 1) % UINT, k) == Slot(nread, k + 1)
  {
    if nread + 1 == UINT {
      assert (nread + 1 + k) % PIPESIZE == k % PIPESIZE;
    }
  }

  class Ring {
    const data: array<byte>
    var nread: nat
    var nwrite: nat
    var readopen: bool
    var writeopen: bool

    ghost predicate Valid()
      reads this, data
    {
      data.Length == PIPESIZE && nread < UINT && nwrite < UINT && Minus(nwrite, nread) <= PIPESIZE
    }

    ghost function C(): (c: seq<byte>)
      requires Valid()
      reads this, data
    {
      Queue(data[..], nread, nwrite)
    }

    /** The part of pipealloc that sets up the pipe. */
    constructor ()
      ensures Valid() && fresh(data) && C() == [] && readopen && writeopen
    {
      data := new byte[PIPESIZE](_ => 0);
      nread := 0;
      nwrite := 0;
      readopen := true;
      writeopen := true;
    }

    /** A turn of pipewrite: until all is stored, or the pipe is full. */
    method Write(rest: seq<byte>, killed: bool) returns (r: WriteEnd, k: nat)
      requires Valid()
      modifies this`nwrite, data
      ensures Valid() && k == Fit(old(C()), rest) && C() == old(C()) + rest[..k]
      ensures r == WriteTurn(old(C()), rest, readopen, killed)
      ensures k <= |rest| && (k == |rest| || |C()| == PIPESIZE) && (r.Written? <==> k == |rest|)
      ensures r.WriteFails? <==> k < |rest| && (!readopen || killed)
    {
      hide Minus, Slot, Queue;
      k := 0;
      while k < |rest|
        invariant Valid() && 0 <= k <= |rest| && C() == old(C()) + rest[..k]
      {
        FullTest(nwrite, nread);
        if nwrite == (nread + PIPESIZE) % UINT {
          if !readopen || killed {
            return WriteFails, k;
          }
          return WriteSleeps, k;
        }
        QueueAppend(data[..], nread, nwrite, rest[k]);
        MinusNext(nwrite, nread);
        ghost var d := data[..];
        data[nwrite % PIPESIZE] := rest[k];
        assert data[..] == d[nwrite % PIPESIZE := rest[k]];
        nwrite := (nwrite + 1) % UINT;
        k := k + 1;
      }
      r := Written;
    }

    /** A turn of piperead. */
    method Read(n: nat, killed: bool) returns (r: ReadEnd)
      requires Valid()
      modifies this`nread
      ensures Valid() && r == ReadTurn(old(C()), n, writeopen, killed)
      ensures C() == if r.GotBytes? then old(C())[|r.bytes|..] else old(C())
      ensures r.GotBytes? <==> old(C()) != [] || !writeopen
      ensures r.GotBytes? ==> |r.bytes| <= n && (|r.bytes| == n || C() == []) && r.bytes + C() == old(C())
      ensures r.ReadFails? ==> killed
      ensures r.ReadSleeps? ==> !killed
    {
      hide Minus, Slot, Queue;
      EmptyTest(nwrite, nread);
      if nread == nwrite && writeopen {
        return if killed then ReadFails else ReadSleeps;
      }
      var bytes: seq<byte> := [];
      var i := 0;
      while i < n && nread != nwrite
        invariant Valid() && 0 <= i <= n && i == |bytes| <= |old(C())|
        invariant bytes == old(C())[..i] && C() == old(C())[i..]
      {
        QueueRemove(data[..], nread, nwrite);
        MinusLess(nwrite, nread);
        TakeMore(old(C()), i, bytes, C());
        bytes := bytes + [data[nread % PIPESIZE]];
        nread := (nread + 1) % UINT;
        i := i + 1;
      }
      EmptyTest(nwrite, nread);
      r := GotBytes(bytes);
    }
  }

  lemma TakeMore(c: seq<byte>, i: nat, front: seq<byte>, back: seq<byte>)
    requires i < |c| && front == c[..i] && back == c[i..]
    ensures front + [back[0]] == c[..i + 1] && back[1..] == c[i + 1..]
  {
  }

  lemma FullTest(nwrite: nat, nread: nat)
    requires nread < UINT && nwrite < UINT
    ensures nwrite == (nread + PIPESIZE) % UINT <==> Minus(nwrite, nread) == PIPESIZE
  {
  }

  lemma EmptyTest(nwrite: nat, nread: nat)
    requires nread < UINT && nwrite < UINT
    ensures nwrite == nread <==> Minus(nwrite, nread) == 0
  {
  }

  // ---------------------------------------------------------------- runs

  /** A process inside pipewrite, with the bytes it has left, or inside piperead. */
  datatype Role = Writer(rest: seq<byte>, asleep: bool) | Reader(n: nat, asleep: bool)

  /** The queue and the ends, who is inside, who is killed, and all bytes ever stored and delivered. */
  datatype State = State(c: seq<byte>, readopen: bool, writeopen: bool, roles: map<nat, Role>, killed: set<nat>,
                         stored: seq<byte>, delivered: seq<byte>)

  datatype Event =
    | StartWrite(p: nat, src: seq<byte>)
    | StartRead(p: nat, n: nat)
    | Turn(p: nat)        // p, awake, runs until it returns or sleeps
    | Kill(p: nat)
    | CloseRead           // the last read descriptor is closed
    | CloseWrite

  predicate HasReader(s: State) {
    exists p :: p in s.roles && s.roles[p].Reader?
  }

  predicate HasWriter(s: State) {
    exists p :: p in s.roles && s.roles[p].Writer?
  }

  /** A process inside a call has its end of the pipe open. */
  predicate Enabled(s: State, e: Event) {
    match e
    case StartWrite(p, src) => p !in s.roles && s.writeopen
    case StartRead(p, n) => p !in s.roles && s.readopen
    case Turn(p) => p in s.roles && !s.roles[p].asleep
    case Kill(p) => true
    case CloseRead => !HasReader(s)
    case CloseWrite => !HasWriter(s)
  }

  function WakeReaders(roles: map<nat, Role>): (r: map<nat, Role>) {
    map p | p in roles :: if roles[p].Reader? then Reader(roles[p].n, false) else roles[p]
  }

  function WakeWriters(roles: map<nat, Role>): (r: map<nat, Role>) {
    map p | p in roles :: if roles[p].Writer? then Writer(roles[p].rest, false) else roles[p]
  }

  function DoWrite(s: State, p: nat): (t: State)
    requires p in s.roles && s.roles[p].Writer? && |s.c| <= PIPESIZE
  {
    var rest := s.roles[p].rest;
    var k := Fit(s.c, rest);
    var u := s.(c := s.c + rest[..k], stored := s.stored + rest[..k]);
    match WriteTurn(s.c, rest, s.readopen, p in s.killed)
    case Written => u.(roles := WakeReaders(s.roles) - {p})
    case WriteFails => u.(roles := s.roles - {p})
    case WriteSleeps => u.(roles := WakeReaders(s.roles)[p := Writer(rest[k..], true)])
  }

  function DoRead(s: State, p: nat): (t: State)
    requires p in s.roles && s.roles[p].Reader?
  {
    match ReadTurn(s.c, s.roles[p].n, s.writeopen, p in s.killed)
    case GotBytes(bytes) =>
      s.(c := s.c[ReadCount(s.roles[p].n, s.c)..], delivered := s.delivered + bytes,
         roles := WakeWriters(s.roles) - {p})
    case ReadFails => s.(roles := s.roles - {p})
    case ReadSleeps => s.(roles := s.roles[p := Reader(s.roles[p].n, true)])
  }

  function Do(s: State, e: Event): (t: State)
    requires Enabled(s, e) && |s.c| <= PIPESIZE
  {
    match e
    case StartWrite(p, src) => s.(roles := s.roles[p := Writer(src, false)])
    case StartRead(p, n) => s.(roles := s.roles[p := Reader(n, false)])
    case Turn(p) => if s.roles[p].Writer? then DoWrite(s, p) else DoRead(s, p)
    case Kill(p) =>
      s.(killed := s.killed + {p},
         roles := if p in s.roles then s.roles[p := s.roles[p].(asleep := false)] else s.roles)
    case CloseRead => s.(readopen := false, roles := WakeWriters(s.roles))
    case CloseWrite => s.(writeopen := false, roles := WakeReaders(s.roles))
  }

  /** First in, first out, within bounds; sleeping writers have a full pipe with a reader's end open. */
  ghost predicate Inv(s: State) {
    && |s.c| <= PIPESIZE && s.stored == s.delivered + s.c
    && (forall p :: p in s.roles && s.roles[p].Writer? && s.roles[p].asleep ==> |s.c| == PIPESIZE && s.readopen)
    && (forall p :: p in s.roles && s.roles[p].Reader? ==> s.readopen)
    && (forall p :: p in s.roles && s.roles[p].Writer? ==> s.writeopen)
  }

  /** Sleeping readers have an empty pipe with a writer's end open. */
  ghost predicate ReadersFine(s: State) {
    forall p :: p in s.roles && s.roles[p].Reader? && s.roles[p].asleep ==> s.c == [] && s.writeopen
  }

  predicate SleepingReader(s: State) {
    exists p :: p in s.roles && s.roles[p].Reader? && s.roles[p].asleep
  }

  /** A killed writer's turn that stores bytes, finds the pipe full and gives up, with a reader asleep. */
  predicate GivesUp(s: State, e: Event) {
    && e.Turn? && e.p in s.roles && s.roles[e.p].Writer? && e.p in s.killed
    && |s.roles[e.p].rest| > PIPESIZE && SleepingReader(s)
  }

  lemma WriteKeeps(s: State, p: nat)
    requires Inv(s) && Enabled(s, Turn(p)) && s.roles[p].Writer?
    ensures Inv(DoWrite(s, p))
  {
    var k := Fit(s.c, s.roles[p].rest);
    Assoc(s.delivered, s.c, s.roles[p].rest[..k]);
  }

  lemma Assoc(a: seq<byte>, b: seq<byte>, c: seq<byte>)
    ensures (a + b) + c == a + (b + c)
  {
  }

  lemma ReadKeeps(s: State, p: nat)
    requires Inv(s) && Enabled(s, Turn(p)) && s.roles[p].Reader?
    ensures Inv(DoRead(s, p))
  {
    hide ReadCount;
    var m := ReadCount(s.roles[p].n, s.c);
    Moved(s.delivered, s.c, m, s.c[..m], s.c[m..]);
  }

  lemma Moved(d: seq<byte>, c: seq<byte>, m: nat, front: seq<byte>, back: seq<byte>)
    requires m <= |c| && front == c[..m] && back == c[m..]
    ensures (d + front) + back == d + c
  {
    assert front + back == c;
  }

  lemma Keeps(s: State, e: Event)
    requires Inv(s) && Enabled(s, e)
    ensures Inv(Do(s, e))
  {
    if e.Turn? {
      if s.roles[e.p].Writer? {
        WriteKeeps(s, e.p);
      } else {
        ReadKeeps(s, e.p);
      }
    }
  }

  /**
   What a reader's turn does. With bytes there, or no writer's end open, it returns as many as it
   asked for or all there are, and no writer is left asleep; else it fails if it is killed, and
   sleeps if not.
   */
  lemma ReadIs(s: State, p: nat)
    requires Inv(s) && Enabled(s, Turn(p)) && s.roles[p].Reader?
    ensures var t, n := Do(s, Turn(p)), s.roles[p].n;
      && t.stored == s.stored && t.killed == s.killed && t.readopen == s.readopen && t.writeopen == s.writeopen
      && t.delivered + t.c == s.delivered + s.c
      && (if s.c != [] || !s.writeopen
          then p !in t.roles && |s.delivered| <= |t.delivered| <= |s.delivered| + n
               && (|t.delivered| == |s.delivered| + n || t.c == [])
               && (forall q :: q in t.roles && t.roles[q].Writer? ==> !t.roles[q].asleep)
          else t.c == s.c && t.roles == if p in s.killed then s.roles - {p} else s.roles[p := Reader(n, true)])
  {
    var n := s.roles[p].n;
    var m := ReadCount(n, s.c);
    Moved(s.delivered, s.c, m, s.c[..m], s.c[m..]);
  }

  /**
   What a writer's turn does: it stores all it has left and returns, or fills the pipe and then
   gives up, if nobody can read or it is killed, or sleeps. Unless it gives up no reader is left asleep.
   */
  lemma WriteIs(s: State, p: nat)
    requires Inv(s) && Enabled(s, Turn(p)) && s.roles[p].Writer?
    ensures var t, rest := Do(s, Turn(p)), s.roles[p].rest;
      var k := |t.stored| - |s.stored|;
      && t.delivered == s.delivered && t.killed == s.killed && t.readopen == s.readopen && t.writeopen == s.writeopen
      && 0 <= k <= |rest| && t.stored == s.stored + rest[..k] && t.c == s.c + rest[..k]
      && (k == |rest| || |t.c| == PIPESIZE)
      && (p in t.roles <==> k < |rest| && s.readopen && p !in s.killed)
      && (p in t.roles ==> t.roles[p] == Writer(rest[k..], true))
      && (k == |rest| || p in t.roles ==> forall q :: q in t.roles && t.roles[q].Reader? ==> !t.roles[q].asleep)
  {
  }

  /** Whether a step leaves no reader asleep for nothing is decided by GivesUp alone. */
  lemma ReadersFineIff(s: State, e: Event)
    requires Inv(s) && ReadersFine(s) && Enabled(s, e)
    ensures ReadersFine(Do(s, e)) <==> !GivesUp(s, e)
  {
    var t := Do(s, e);
    if GivesUp(s, e) {
      var q :| q in s.roles && s.roles[q].Reader? && s.roles[q].asleep;
      assert s.c == [] && q in t.roles && t.roles[q] == s.roles[q];
      assert |t.c| == PIPESIZE;
    } else if e.Turn? && s.roles[e.p].Writer? {
      WriterWakes(s, e.p);
    }
  }

  lemma WriterWakes(s: State, p: nat)
    requires Inv(s) && ReadersFine(s) && Enabled(s, Turn(p)) && s.roles[p].Writer? && !GivesUp(s, Turn(p))
    ensures ReadersFine(DoWrite(s, p))
  {
    var t := DoWrite(s, p);
    forall q | q in t.roles && t.roles[q].Reader? ensures !t.roles[q].asleep {
      assert q in s.roles && s.roles[q].Reader? && (t.roles[q].asleep ==> s.roles[q].asleep);
      assert t.roles[q].asleep ==> SleepingReader(s);
    }
  }

  ghost predicate Runs(s: State, es: seq<Event>)
    decreases |es|
  {
    es == [] || (|s.c| <= PIPESIZE && Enabled(s, es[0]) && Runs(Do(s, es[0]), es[1..]))
  }

  ghost function End(s: State, es: seq<Event>): (t: State)
    requires Runs(s, es)
    decreases |es|
  {
    if es == [] then s else End(Do(s, es[0]), es[1..])
  }

  /** No writer gives up in the run. */
  ghost predicate NobodyGivesUp(s: State, es: seq<Event>)
    requires Runs(s, es)
    decreases |es|
  {
    es == [] || (!GivesUp(s, es[0]) && NobodyGivesUp(Do(s, es[0]), es[1..]))
  }

  function New(): (s: State) {
    State([], true, true, map[], {}, [], [])
  }

  lemma {:induction false} RunsKeep(s: State, es: seq<Event>)
    requires Inv(s) && Runs(s, es)
    ensures Inv(End(s, es))
    ensures ReadersFine(s) && NobodyGivesUp(s, es) ==> ReadersFine(End(s, es))
    decreases |es|
  {
    hide Inv, Enabled, Do, ReadersFine, GivesUp;
    if es != [] {
      Keeps(s, es[0]);
      RunsKeep(Do(s, es[0]), es[1..]);
      if ReadersFine(s) {
        ReadersFineIff(s, es[0]);
      }
    }
  }

  /** In every run the bytes delivered are the first bytes stored, and what is missing is in the pipe. */
  lemma Fifo(es: seq<Event>)
    requires Runs(New(), es)
    ensures var t := End(New(), es); t.delivered <= t.stored && |t.stored| - |t.delivered| <= PIPESIZE
  {
    RunsKeep(New(), es);
  }

  /** In every run no writer sleeps unless the pipe is full; nor a reader unless it is empty, if nobody gives up. */
  lemma NobodySleepsForNothing(es: seq<Event>, p: nat)
    requires Runs(New(), es) && p in End(New(), es).roles && End(New(), es).roles[p].asleep
    ensures var t := End(New(), es);
      && (t.roles[p].Writer? ==> |t.c| == PIPESIZE && t.readopen)
      && (t.roles[p].Reader? && NobodyGivesUp(New(), es) ==> t.c == [] && t.writeopen)
  {
    RunsKeep(New(), es);
  }

  lemma {:induction false} Extend(s: State, es: seq<Event>, e: Event)
    requires Runs(s, es) && |End(s, es).c| <= PIPESIZE && Enabled(End(s, es), e)
    ensures Runs(s, es + [e]) && End(s, es + [e]) == Do(End(s, es), e)
    decreases |es|
  {
    hide Enabled, Do;
    if es == [] {
      assert (es + [e])[0] == e && (es + [e])[1..] == [];
    } else {
      Extend(Do(s, es[0]), es[1..], e);
      assert (es + [e])[0] == es[0] && (es + [e])[1..] == es[1..] + [e];
    }
  }

  /** A reader asleep on a full pipe: a writer, killed after it began, has filled it and given up. */
  lemma ReaderCanSleepOnFullPipe(src: seq<byte>) returns (es: seq<Event>)
    requires |src| == PIPESIZE + 1
    ensures Runs(New(), es)
    ensures var t := End(New(), es); 1 in t.roles && t.roles[1] == Reader(1, true) && |t.c| == PIPESIZE
  {
    es := [];
    Extend(New(), es, StartRead(1, 1));
    es := es + [StartRead(1, 1)];
    Extend(New(), es, Turn(1));
    es := es + [Turn(1)];
    hide Runs, End;
    Extend(New(), es, StartWrite(2, src));
    es := es + [StartWrite(2, src)];
    Extend(New(), es, Kill(2));
    es := es + [Kill(2)];
    Extend(New(), es, Turn(2));
    es := es + [Turn(2)];
  }
}
