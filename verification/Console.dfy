/**
 The console's line discipline: a ring of 128 characters that holds what readers may take and,
 behind it, the line still being edited, between counters that wrap at 2^32.
 */
module Console {
  import opened Wrappers

  const INPUT_BUF := 128
  const UINT := 0x1_0000_0000

  const CTRL_D := 4
  const CTRL_H := 8
  const CTRL_P := 16
  const CTRL_U := 21
  const DEL := 0x7f
  const NL := 10
  const CR := 13

  /** The input: committed characters and the line being edited. */
  datatype Input = Input(done: seq<int>, line: seq<int>)

  // ---------------------------------------------------------------- what a key does

  /** The line without its end, back to a newline. */
  function Killed(line: seq<int>): (r: seq<int>) {
    if line == [] || line[|line| - 1] == NL then line else Killed(line[..|line| - 1])
  }

  /** A key's effect: editing changes the line alone; the end of a line commits it. */
  function Key(s: Input, c: int): (t: Input) {
    if c == CTRL_P then s
    else if c == CTRL_U then s.(line := Killed(s.line))
    else if c == CTRL_H || c == DEL then if s.line == [] then s else s.(line := s.line[..|s.line| - 1])
    else if c == 0 || |s.done| + |s.line| >= INPUT_BUF then s
    else
      var x := if c == CR then NL else c;
      var l := s.line + [x];
      if x == NL || x == CTRL_D || |s.done| + |l| == INPUT_BUF then Input(s.done + l, []) else s.(line := l)
  }

  ghost predicate Valid(s: Input) {
    |s.done| + |s.line| <= INPUT_BUF && NL !in s.line && CTRL_D !in s.line
  }

  lemma {:induction false} KilledIs(line: seq<int>)
    requires NL !in line
    ensures Killed(line) == []
    decreases |line|
  {
    if line != [] {
      assert line[|line| - 1] in line;
      KilledIs(line[..|line| - 1]);
    }
  }

  /** Keys keep the bounds, never touch committed characters, and kill exactly the edited line. */
  lemma KeyKeeps(s: Input, c: int)
    requires Valid(s)
    ensures Valid(Key(s, c)) && s.done <= Key(s, c).done
    ensures c == CTRL_U ==> Key(s, c) == Input(s.done, [])
  {
    KilledIs(s.line);
    if s.line != [] {
      assert forall x :: x in s.line[..|s.line| - 1] ==> x in s.line;
    }
  }

  /** Keys that edit, or do nothing to, the line. */
  predicate Edits(c: int) {
    c == 0 || c == CTRL_P || c == CTRL_U || c == CTRL_H || c == DEL
  }

  /**
   What a key turns s into: control-U empties the line, backspace and delete take its last
   character, control-P and NUL do nothing. Any other key is put at the end, if there is room, as
   it is, but a carriage return as a newline; it commits the line exactly if it ends a line or the
   input, or fills the ring.
   */
  ghost predicate Typed(s: Input, c: int, t: Input) {
    && (c == CTRL_U ==> t == Input(s.done, []))
    && (c == CTRL_H || c == DEL ==> t.done == s.done && |t.line| == (if s.line == [] then 0 else |s.line| - 1)
                                    && t.line <= s.line)
    && (c == 0 || c == CTRL_P ==> t == s)
    && (!Edits(c) && |s.done| + |s.line| >= INPUT_BUF ==> t == s)
    && (!Edits(c) && |s.done| + |s.line| < INPUT_BUF ==>
          && t.done + t.line == s.done + s.line + [if c == CR then NL else c]
          && (t.line == [] <==> c == CR || c == NL || c == CTRL_D || |s.done| + |s.line| + 1 == INPUT_BUF)
          && (t.line != [] ==> t.done == s.done))
  }

  lemma KeyTypes(s: Input, c: int)
    requires Valid(s)
    ensures Typed(s, c, Key(s, c))
  {
    KilledIs(s.line);
  }

  // ---------------------------------------------------------------- what a read takes

  /** A read returns bytes, or has taken some and must wait; either way rest stays committed. */
  datatype ReadEnd = Returns(bytes: seq<int>, rest: seq<int>) | Waits(bytes: seq<int>, rest: seq<int>)

  /** A turn of consoleread that wants n more characters and has got some already. */
  function Reading(done: seq<int>, n: nat, got: seq<int>): (r: ReadEnd)
    decreases n
  {
    if n == 0 then Returns(got, done)
    else if done == [] then Waits(got, done)
    else if done[0] == CTRL_D then Returns(got, if got == [] then done[1..] else done)
    else if done[0] == NL then Returns(got + [NL], done[1..])
    else Reading(done[1..], n - 1, got + [done[0]])
  }

  /** How a turn ends: with a result, with -1 for a killed reader, or asleep. */
  datatype Turned = Returned(bytes: seq<int>) | Failed(bytes: seq<int>) | Sleeps(bytes: seq<int>)

  function After(r: ReadEnd, killed: bool): (t: Turned) {
    if r.Returns? then Returned(r.bytes) else if killed then Failed(r.bytes) else Sleeps(r.bytes)
  }

  /**
   A read that returns has all it asked for, or a line, or stands before an end-of-file mark with
   something to return, or has met one with nothing.
   */
  ghost predicate Enough(done: seq<int>, n: nat, got: seq<int>, bytes: seq<int>, rest: seq<int>) {
    || |bytes| == |got| + n
    || (|bytes| > |got| && bytes[|bytes| - 1] == NL)
    || (bytes != [] && rest != [] && rest[0] == CTRL_D)
    || (got == [] && bytes == [] && done != [] && done[0] == CTRL_D && rest == done[1..])
  }

  /** What is taken is the front of what was committed, but for an end-of-file mark at its very start. */
  lemma {:induction false} ReadingTakes(done: seq<int>, n: nat, got: seq<int>)
    ensures var r := Reading(done, n, got);
      && got <= r.bytes && |r.bytes| <= |got| + n
      && (r.bytes[|got|..] + r.rest == done
          || (got == [] && done != [] && done[0] == CTRL_D && r == Returns([], done[1..])))
      && CTRL_D !in r.bytes[|got|..]
      && (forall k :: |got| <= k < |r.bytes| - 1 ==> r.bytes[k] != NL)
      && (r.Waits? ==> r.rest == [] && |r.bytes| < |got| + n)
      && (r.Returns? ==> Enough(done, n, got, r.bytes, r.rest))
    decreases n
  {
    if n > 0 && done != [] && done[0] != CTRL_D && done[0] != NL {
      ReadingTakes(done[1..], n - 1, got + [done[0]]);
      var r := Reading(done, n, got);
      assert r.bytes[|got|..] == [done[0]] + r.bytes[|got| + 1..];
    }
  }

  // ---------------------------------------------------------------- the ring

  /** a - b in unsigned 32-bit arithmetic. */
  function Minus(a: nat, b: nat): (d: nat)
    requires a < UINT && b < UINT
    ensures d < UINT
  {
    if a >= b then a - b else a + UINT - b
  }

  function Inc(a: nat): (r: nat)
    requires a < UINT
    ensures r < UINT
  {
    if a + 1 == UINT then 0 else a + 1
  }

  function Dec(a: nat): (r: nat)
    requires a < UINT
    ensures r < UINT && Inc(r) == a
  {
    if a == 0 then UINT - 1 else a - 1
  }

  /** The n characters of the ring from counter a on. */
  function Ring(buf: seq<int>, a: nat, n: nat): (s: seq<int>)
    requires |buf| == INPUT_BUF
    ensures |s| == n
  {
    seq(n, k requires 0 <= k => buf[Slot(a, k)])
  }

  function Slot(a: nat, k: nat): (i: nat)
    ensures i < INPUT_BUF
  {
    (a + k) % INPUT_BUF
  }

  /** r, w and e stand in this order, at most a ring apart. */
  ghost predicate Ordered(r: nat, w: nat, e: nat) {
    r < UINT && w < UINT && e < UINT && Minus(w, r) + Minus(e, w) <= INPUT_BUF
  }

  lemma SpanIs(r: nat, w: nat, e: nat)
    requires Ordered(r, w, e)
    ensures Minus(e, r) == Minus(w, r) + Minus(e, w)
    ensures Slot(r, Minus(w, r)) == w % INPUT_BUF && Slot(w, Minus(e, w)) == e % INPUT_BUF
  {
    SlotMinus(r, w);
    SlotMinus(w, e);
  }

  lemma SlotMinus(a: nat, b: nat)
    requires a < UINT && b < UINT
    ensures Slot(a, Minus(b, a)) == b % INPUT_BUF
  {
    if b < a {
      assert (b + UINT) % INPUT_BUF == b % INPUT_BUF;
    }
  }

  lemma SlotShift(r: nat, w: nat, k: nat)
    requires r < UINT && w < UINT
    ensures Slot(w, k) == Slot(r, Minus(w, r) + k)
  {
    if w < r {
      assert r + (Minus(w, r) + k) == (w + k) + UINT;
      assert ((w + k) + UINT) % INPUT_BUF == (w + k) % INPUT_BUF;
    }
  }

  lemma SlotNext(a: nat, k: nat)
    requires a < UINT
    ensures Slot(Inc(a), k) == Slot(a, k + 1)
  {
    if a + 1 == UINT {
      assert (UINT + k) % INPUT_BUF == k % INPUT_BUF;
    }
  }

  lemma SlotsApart(a: nat, j: nat, k: nat)
    requires j < k < INPUT_BUF
    ensures Slot(a, j) != Slot(a, k)
  {
  }

  /** Storing behind the last character changes none before it. */
  lemma RingStore(buf: seq<int>, a: nat, n: nat, x: int)
    requires |buf| == INPUT_BUF && n < INPUT_BUF
    ensures Ring(buf[Slot(a, n) := x], a, n + 1) == Ring(buf, a, n) + [x]
    ensures Ring(buf[Slot(a, n) := x], a, n) == Ring(buf, a, n)
  {
    hide Slot;
    var b := buf[Slot(a, n) := x];
    forall k | 0 <= k <= n ensures b[Slot(a, k)] == if k == n then x else buf[Slot(a, k)] {
      if k < n {
        SlotsApart(a, k, n);
      }
    }
  }

  /** A ring from r splits at w. */
  lemma RingSplit(buf: seq<int>, r: nat, w: nat, m: nat)
    requires |buf| == INPUT_BUF && r < UINT && w < UINT
    ensures Ring(buf, r, Minus(w, r) + m) == Ring(buf, r, Minus(w, r)) + Ring(buf, w, m)
  {
    hide Slot;
    var n := Minus(w, r);
    forall k | 0 <= k < m ensures buf[Slot(w, k)] == buf[Slot(r, n + k)] {
      SlotShift(r, w, k);
    }
  }

  lemma RingTail(buf: seq<int>, a: nat, n: nat)
    requires |buf| == INPUT_BUF && a < UINT && n > 0
    ensures Ring(buf, Inc(a), n - 1) == Ring(buf, a, n)[1..] && Ring(buf, a, n)[0] == buf[a % INPUT_BUF]
  {
    assert Slot(a, 0) == a % INPUT_BUF;
    hide Slot;
    forall k | 0 <= k < n - 1 ensures buf[Slot(Inc(a), k)] == buf[Slot(a, k + 1)] {
      SlotNext(a, k);
    }
  }

  class Device {
    const buf: array<int>
    var r: nat
    var w: nat
    var e: nat

    ghost predicate Ok()
      reads this, buf
    {
      buf.Length == INPUT_BUF && Ordered(r, w, e)
    }

    ghost function S(): (s: Input)
      requires Ok()
      reads this, buf
    {
      Input(Ring(buf[..], r, Minus(w, r)), Ring(buf[..], w, Minus(e, w)))
    }

    constructor ()
      ensures Ok() && fresh(buf) && S() == Input([], [])
    {
      buf := new int[INPUT_BUF](_ => 0);
      r, w, e := 0, 0, 0;
    }

    /** The last character of the line is taken back. */
    method Back()
      requires Ok() && e != w
      modifies this`e
      ensures Ok() && old(S()).line != [] && S() == Input(old(S()).done, old(S()).line[..|old(S()).line| - 1])
    {
      MinusDec(e, w);
      e := Dec(e);
    }

    /** One key of consoleintr. */
    method Press(c: int)
      requires Ok() && Valid(S())
      modifies this`w, this`e, buf
      ensures Ok() && S() == Key(old(S()), c) && Typed(old(S()), c, S())
    {
      hide Ring, Ordered, Minus, Typed;
      KeyTypes(S(), c);
      OrderedIs(r, w, e);
      if c == CTRL_P {
      } else if c == CTRL_U {
        ghost var line := S().line;
        LastChar(buf[..], w, e);
        while e != w && buf[Dec(e) % INPUT_BUF] != NL
          invariant e < UINT && w < UINT
          invariant Ok() && S().done == old(S()).done && Killed(S().line) == Killed(line)
          invariant e != w ==> S().line != [] && S().line[|S().line| - 1] == buf[Dec(e) % INPUT_BUF]
          invariant e == w ==> S().line == []
          decreases |S().line|
        {
          Back();
          OrderedIs(r, w, e);
          LastChar(buf[..], w, e);
        }
      } else if c == CTRL_H || c == DEL {
        LastChar(buf[..], w, e);
        if e != w {
          Back();
        }
      } else {
        SpanIs(r, w, e);
        if c != 0 && Minus(e, r) < INPUT_BUF {
          Store(if c == CR then NL else c);
        }
      }
    }

    /** A turn of consoleread, until it returns or has to sleep; a killed reader fails instead. */
    method Read(want: nat, had: seq<int>, killed: bool) returns (t: Turned)
      requires Ok() && Valid(S())
      modifies this`r
      ensures Ok() && S().line == old(S()).line && S().done == Reading(old(S()).done, want, had).rest
      ensures t == After(Reading(old(S()).done, want, had), killed)
      ensures had <= t.bytes && |t.bytes| <= |had| + want
      ensures t.bytes[|had|..] + S().done == old(S()).done
              || (had == [] && t == Returned([]) && old(S()).done == [CTRL_D] + S().done)
      ensures t.Returned? ==> Enough(old(S()).done, want, had, t.bytes, S().done)
      ensures !t.Returned? ==> S().done == [] && |t.bytes| < |had| + want && (t.Failed? <==> killed)
    {
      hide Ring, Ordered, Minus, Enough;
      ReadingTakes(S().done, want, had);
      OrderedIs(r, w, e);
      var got := had;
      var n := want;
      while n > 0
        invariant Ok() && r < UINT && w < UINT && S().line == old(S()).line
        invariant Reading(old(S()).done, want, had) == Reading(S().done, n, got)
        decreases n
      {
        FrontChar(buf[..], r, w, e);
        if r == w {
          return if killed then Failed(got) else Sleeps(got);
        }
        var c := buf[r % INPUT_BUF];
        if c == CTRL_D {
          if got == [] {
            r := Inc(r);
          }
          return Returned(got);
        }
        r := Inc(r);
        got := got + [c];
        n := n - 1;
        if c == NL {
          return Returned(got);
        }
      }
      t := Returned(got);
    }

    /** A character is put behind the line, which is committed if it ends there. */
    method Store(x: int)
      requires Ok() && Minus(e, r) < INPUT_BUF && |S().done| + |S().line| < INPUT_BUF
      modifies this`w, this`e, buf
      ensures Ok()
      ensures var s := old(S());
        var l := s.line + [x];
        S() == if x == NL || x == CTRL_D || |s.done| + |l| == INPUT_BUF then Input(s.done + l, []) else s.(line := l)
    {
      hide Ring;
      ghost var b := buf[..];
      SpanIs(r, w, e);
      StoreIs(b, r, w, e, x);
      buf[e % INPUT_BUF] := x;
      assert buf[..] == b[e % INPUT_BUF := x];
      e := Inc(e);
      if x == NL || x == CTRL_D || e == (r + INPUT_BUF) % UINT {
        w := e;
      }
    }
  }

  /** Taking the first committed character. */
  lemma FrontChar(buf: seq<int>, r: nat, w: nat, e: nat)
    requires |buf| == INPUT_BUF && Ordered(r, w, e)
    ensures var done := Ring(buf, r, Minus(w, r));
      if r == w then done == []
      else done != [] && done[0] == buf[r % INPUT_BUF] && Ordered(Inc(r), w, e)
           && Ring(buf, Inc(r), Minus(w, Inc(r))) == done[1..]
  {
    if r != w {
      assert Minus(w, Inc(r)) == Minus(w, r) - 1;
      RingTail(buf, r, Minus(w, r));
    }
  }

  lemma OrderedIs(r: nat, w: nat, e: nat)
    requires Ordered(r, w, e)
    ensures r < UINT && w < UINT && e < UINT && (Minus(e, w) == 0 <==> e == w)
  {
  }

  lemma MinusDec(e: nat, w: nat)
    requires e < UINT && w < UINT && e != w
    ensures Minus(e, w) > 0 && Minus(Dec(e), w) == Minus(e, w) - 1
  {
  }

  lemma LastChar(buf: seq<int>, w: nat, e: nat)
    requires |buf| == INPUT_BUF && w < UINT && e < UINT && Minus(e, w) <= INPUT_BUF
    ensures var line := Ring(buf, w, Minus(e, w));
      if e == w then line == [] else line != [] && line[|line| - 1] == buf[Dec(e) % INPUT_BUF]
  {
    if e != w {
      MinusDec(e, w);
      SlotMinus(w, Dec(e));
    }
  }

  /** The ring after a character is stored at e. */
  lemma StoreIs(buf: seq<int>, r: nat, w: nat, e: nat, x: int)
    requires |buf| == INPUT_BUF && Ordered(r, w, e) && Minus(e, r) < INPUT_BUF
    ensures var b := buf[e % INPUT_BUF := x];
      && Ordered(r, w, Inc(e)) && Minus(Inc(e), r) == Minus(e, r) + 1
      && (Inc(e) == (r + INPUT_BUF) % UINT <==> Minus(Inc(e), r) == INPUT_BUF)
      && Ring(b, r, Minus(w, r)) == Ring(buf, r, Minus(w, r))
      && Ring(b, w, Minus(Inc(e), w)) == Ring(buf, w, Minus(e, w)) + [x]
      && Ring(b, r, Minus(Inc(e), r)) == Ring(buf, r, Minus(w, r)) + (Ring(buf, w, Minus(e, w)) + [x])
      && Minus(Inc(e), Inc(e)) == 0 && Ordered(r, Inc(e), Inc(e))
  {
    hide Ring, Slot;
    SpanIs(r, w, e);
    IncIs(r, w, e);
    var b := buf[e % INPUT_BUF := x];
    RingStore(buf, w, Minus(e, w), x);
    RingDone(buf, r, w, e, x);
    RingSplit(b, r, w, Minus(Inc(e), w));
    SpanIs(r, w, Inc(e));
  }

  lemma IncIs(r: nat, w: nat, e: nat)
    requires Ordered(r, w, e) && Minus(e, r) < INPUT_BUF
    ensures Minus(Inc(e), w) == Minus(e, w) + 1 && Minus(Inc(e), r) == Minus(e, r) + 1 && Ordered(r, w, Inc(e))
    ensures Ordered(r, Inc(e), Inc(e)) && Minus(Inc(e), Inc(e)) == 0
    ensures Inc(e) == (r + INPUT_BUF) % UINT <==> Minus(Inc(e), r) == INPUT_BUF
  {
    SpanIs(r, w, e);
  }

  /** Storing at e leaves the committed characters alone. */
  lemma RingDone(buf: seq<int>, r: nat, w: nat, e: nat, x: int)
    requires |buf| == INPUT_BUF && Ordered(r, w, e) && Minus(e, r) < INPUT_BUF
    ensures Ring(buf[e % INPUT_BUF := x], r, Minus(w, r)) == Ring(buf, r, Minus(w, r))
  {
    SpanIs(r, w, e);
    SlotMinus(r, e);
    hide Slot;
    var b := buf[e % INPUT_BUF := x];
    forall k | 0 <= k < Minus(w, r) ensures b[Slot(r, k)] == buf[Slot(r, k)] {
      SlotsApart(r, k, Minus(e, r));
    }
  }

  // ---------------------------------------------------------------- runs

  /** A process inside its id-th call of consoleread. */
  datatype Reader = Reader(id: nat, asked: nat, got: seq<int>, asleep: bool) {
    function Left(): (n: nat) {
      if |got| < asked then asked - |got| else 0
    }
  }

  /** What call id of consoleread answered; None is -1. */
  datatype Reply = Reply(id: nat, asked: nat, bytes: Option<seq<int>>)

  /** A character, and the call that took it. */
  datatype Took = Took(id: nat, c: int)

  /**
   The input, the readers, who has been killed, how many calls there have been, and what has been
   committed, taken and answered so far.
   */
  datatype State = State(input: Input, readers: map<nat, Reader>, killed: set<nat>, calls: nat,
                         committed: seq<int>, taken: seq<Took>, replies: seq<Reply>)

  datatype Event =
    | KeyPress(c: int)
    | StartRead(p: nat, n: nat)
    | Turn(p: nat)  // reader p, awake, goes on until it returns or sleeps
    | Kill(p: nat)

  predicate Enabled(s: State, e: Event) {
    match e
    case KeyPress(c) => true
    case StartRead(p, n) => p !in s.readers
    case Turn(p) => p in s.readers && !s.readers[p].asleep
    case Kill(p) => true
  }

  function WakeAll(rs: map<nat, Reader>): (r: map<nat, Reader>) {
    map p | p in rs :: rs[p].(asleep := false)
  }

  /** A key; whatever it commits wakes the readers. */
  function Pressed(s: State, i: Input): (t: State) {
    if |i.done| <= |s.input.done| then s.(input := i)
    else s.(input := i, committed := s.committed + i.done[|s.input.done|..], readers := WakeAll(s.readers))
  }

  /** Reader p takes its turn. */
  function Turns(s: State, p: nat): (t: State)
    requires Enabled(s, Turn(p))
  {
    var r := s.readers[p];
    var end := Reading(s.input.done, r.Left(), r.got);
    var u := s.(input := s.input.(done := end.rest), taken := s.taken + Tagged(r.id, Used(r.got, s.input.done, end)));
    match After(end, p in s.killed)
    case Returned(b) => u.(readers := s.readers - {p}, replies := s.replies + [Reply(r.id, r.asked, Some(b))])
    case Failed(b) => u.(readers := s.readers - {p}, replies := s.replies + [Reply(r.id, r.asked, None)])
    case Sleeps(b) => u.(readers := s.readers[p := Reader(r.id, r.asked, b, true)])
  }

  function Tagged(id: nat, cs: seq<int>): (t: seq<Took>)
    ensures |t| == |cs|
  {
    seq(|cs|, k requires 0 <= k < |cs| => Took(id, cs[k]))
  }

  function Chars(t: seq<Took>): (cs: seq<int>)
    ensures |cs| == |t|
  {
    seq(|t|, k requires 0 <= k < |t| => t[k].c)
  }

  /** The characters call id has taken, in order, but for end-of-file marks. */
  function Share(t: seq<Took>, id: nat): (cs: seq<int>) {
    if t == [] then []
    else
      var last := t[|t| - 1];
      Share(t[..|t| - 1], id) + if last.id == id && last.c != CTRL_D then [last.c] else []
  }

  /** What a turn takes: the characters it got, or an end-of-file mark. */
  function Used(had: seq<int>, done: seq<int>, end: ReadEnd): (u: seq<int>) {
    if |end.bytes| == |had| && |end.rest| < |done| then [CTRL_D]
    else if |end.bytes| >= |had| then end.bytes[|had|..] else []
  }

  function Do(s: State, e: Event): (t: State)
    requires Enabled(s, e)
  {
    match e
    case KeyPress(c) => Pressed(s, Key(s.input, c))
    case StartRead(p, n) => s.(calls := s.calls + 1, readers := s.readers[p := Reader(s.calls, n, [], false)])
    case Turn(p) => Turns(s, p)
    case Kill(p) =>
      var w := if p in s.readers then s.readers[p := s.readers[p].(asleep := false)] else s.readers;
      s.(killed := s.killed + {p}, readers := w)
  }

  /** A line, or the part of one that was asked for. */
  ghost predicate LineOf(bytes: seq<int>, asked: nat) {
    |bytes| <= asked && CTRL_D !in bytes && forall k :: 0 <= k < |bytes| - 1 ==> bytes[k] != NL
  }

  ghost predicate ReadersOk(s: State) {
    forall p :: p in s.readers ==> LineOf(s.readers[p].got, s.readers[p].asked) && NL !in s.readers[p].got
  }

  ghost predicate RepliesOk(s: State) {
    forall k :: 0 <= k < |s.replies| && s.replies[k].bytes.Some? ==>
      LineOf(s.replies[k].bytes.value, s.replies[k].asked)
  }

  /** Nobody sleeps while there is something to read. */
  ghost predicate NoneForgotten(s: State) {
    s.input.done != [] ==> forall p :: p in s.readers ==> !s.readers[p].asleep
  }

  /** What has been committed is what readers have taken, in order, and what is left. */
  ghost predicate Conserved(s: State) {
    s.committed == Chars(s.taken) + s.input.done
  }

  /** Calls at work, and answered ones, are different calls. */
  ghost predicate CallsApart(s: State) {
    && (forall p :: p in s.readers ==> s.readers[p].id < s.calls)
    && (forall k :: 0 <= k < |s.replies| ==> s.replies[k].id < s.calls)
    && (forall p, q :: p in s.readers && q in s.readers && p != q ==> s.readers[p].id != s.readers[q].id)
    && (forall p, k :: p in s.readers && 0 <= k < |s.replies| ==> s.readers[p].id != s.replies[k].id)
    && (forall j, k :: 0 <= j < k < |s.replies| ==> s.replies[j].id != s.replies[k].id)
    && (forall k :: 0 <= k < |s.taken| ==> s.taken[k].id < s.calls)
  }

  /** Whoever reads has got its share of what was taken, and so has whoever was answered. */
  ghost predicate Shared(s: State) {
    && (forall p :: p in s.readers ==> s.readers[p].got == Share(s.taken, s.readers[p].id))
    && (forall k :: 0 <= k < |s.replies| && s.replies[k].bytes.Some? ==>
          s.replies[k].bytes.value == Share(s.taken, s.replies[k].id))
  }

  ghost predicate Inv(s: State) {
    && Valid(s.input) && ReadersOk(s) && RepliesOk(s) && NoneForgotten(s) && Conserved(s)
    && CallsApart(s) && Shared(s)
  }

  lemma {:induction false} ShareTagged(t: seq<Took>, id: nat, cs: seq<int>, j: nat)
    requires CTRL_D !in cs
    ensures Share(t + Tagged(id, cs), j) == Share(t, j) + if j == id then cs else []
    decreases |cs|
  {
    if cs == [] {
      assert t + Tagged(id, cs) == t;
    } else {
      var n := |cs| - 1;
      var u := t + Tagged(id, cs);
      assert u[..|u| - 1] == t + Tagged(id, cs[..n]) && u[|u| - 1] == Took(id, cs[n]);
      assert cs[n] in cs && forall c :: c in cs[..n] ==> c in cs;
      ShareTagged(t, id, cs[..n], j);
      assert j == id ==> cs[..n] + [cs[n]] == cs;
    }
  }

  lemma ShareMark(t: seq<Took>, id: nat, j: nat)
    ensures Share(t + Tagged(id, [CTRL_D]), j) == Share(t, j)
  {
    var u := t + Tagged(id, [CTRL_D]);
    assert u[..|u| - 1] == t && u[|u| - 1] == Took(id, CTRL_D);
  }

  lemma {:induction false} NoShare(t: seq<Took>, id: nat)
    requires forall k :: 0 <= k < |t| ==> t[k].id != id
    ensures Share(t, id) == []
  {
    if t != [] {
      NoShare(t[..|t| - 1], id);
    }
  }

  lemma CharsMore(t: seq<Took>, id: nat, cs: seq<int>)
    ensures Chars(t + Tagged(id, cs)) == Chars(t) + cs
  {
  }

  lemma PressKeeps(s: State, c: int)
    requires Inv(s)
    ensures Inv(Do(s, KeyPress(c)))
  {
    hide Key, LineOf;
    KeyKeeps(s.input, c);
    var i := Key(s.input, c);
    if |i.done| > |s.input.done| {
      assert Chars(s.taken) + i.done == Chars(s.taken) + s.input.done + i.done[|s.input.done|..];
    } else {
      assert i.done == s.input.done;
    }
  }

  /** A turn that has taken part of a line goes on with the rest of it. */
  lemma TurnReads(s: State, p: nat)
    requires Inv(s) && Enabled(s, Turn(p))
    ensures var r := s.readers[p];
      var end := Reading(s.input.done, r.Left(), r.got);
      && LineOf(end.bytes, r.asked) && (end.Waits? ==> NL !in end.bytes && end.rest == [])
      && Used(r.got, s.input.done, end) + end.rest == s.input.done
      && (if Used(r.got, s.input.done, end) == [CTRL_D] then end.bytes == r.got
          else CTRL_D !in Used(r.got, s.input.done, end) && end.bytes == r.got + Used(r.got, s.input.done, end))
      && (end.Returns? ==> Enough(s.input.done, r.Left(), r.got, end.bytes, end.rest))
  {
    var r := s.readers[p];
    var n := r.Left();
    ReadingTakes(s.input.done, n, r.got);
    var end := Reading(s.input.done, n, r.got);
    assert end.bytes == r.got + end.bytes[|r.got|..];
    forall k | 0 <= k < |end.bytes| - 1 ensures end.bytes[k] != NL {
      assert k < |r.got| ==> r.got[k] in r.got && end.bytes[k] == r.got[k];
    }
    if end.Waits? {
      WaitsInLine(s.input.done, n, r.got);
    }
  }

  lemma {:induction false} WaitsInLine(done: seq<int>, n: nat, got: seq<int>)
    requires NL !in got && Reading(done, n, got).Waits?
    ensures NL !in Reading(done, n, got).bytes
    decreases n
  {
    if n > 0 && done != [] && done[0] != CTRL_D && done[0] != NL {
      WaitsInLine(done[1..], n - 1, got + [done[0]]);
    }
  }

  /** After a turn each call has its share again: the one that took, and all others. */
  lemma TurnShares(s: State, p: nat, j: nat)
    requires Inv(s) && Enabled(s, Turn(p))
    ensures var r := s.readers[p];
      var end := Reading(s.input.done, r.Left(), r.got);
      Share(Do(s, Turn(p)).taken, j) == if j == r.id then end.bytes else Share(s.taken, j)
  {
    hide Reading, LineOf, Used, Share, ReadersOk, RepliesOk;
    TurnReads(s, p);
    var r := s.readers[p];
    var end := Reading(s.input.done, r.Left(), r.got);
    var used := Used(r.got, s.input.done, end);
    if used == [CTRL_D] {
      ShareMark(s.taken, r.id, j);
    } else {
      ShareTagged(s.taken, r.id, used, j);
      assert Share(s.taken, j) + [] == Share(s.taken, j);
    }
  }

  lemma TurnShared(s: State, p: nat)
    requires Inv(s) && Enabled(s, Turn(p))
    ensures Shared(Do(s, Turn(p))) && CallsApart(Do(s, Turn(p)))
  {
    hide Reading, LineOf, Used, Share, ReadersOk, RepliesOk, Conserved, NoneForgotten;
    var t := Do(s, Turn(p));
    forall q | q in t.readers ensures t.readers[q].got == Share(t.taken, t.readers[q].id) {
      TurnShares(s, p, t.readers[q].id);
    }
    forall k | 0 <= k < |t.replies| && t.replies[k].bytes.Some?
      ensures t.replies[k].bytes.value == Share(t.taken, t.replies[k].id)
    {
      TurnShares(s, p, t.replies[k].id);
    }
  }

  lemma TurnConserves(s: State, p: nat)
    requires Inv(s) && Enabled(s, Turn(p))
    ensures Conserved(Do(s, Turn(p))) && NoneForgotten(Do(s, Turn(p))) && Valid(Do(s, Turn(p)).input)
  {
    hide Reading, LineOf, Used, Shared, CallsApart, Share, Chars, ReadersOk, RepliesOk;
    TurnReads(s, p);
    var t := Do(s, Turn(p));
    var r := s.readers[p];
    var end := Reading(s.input.done, r.Left(), r.got);
    CharsMore(s.taken, r.id, Used(r.got, s.input.done, end));
    assert |end.rest| <= |s.input.done|;
    assert t.committed == Chars(t.taken) + t.input.done;
  }

  lemma TurnKeeps(s: State, p: nat)
    requires Inv(s) && Enabled(s, Turn(p))
    ensures Inv(Do(s, Turn(p)))
  {
    hide Reading, LineOf, Used, Shared, CallsApart, Share, Conserved, NoneForgotten, Valid;
    TurnShared(s, p);
    TurnConserves(s, p);
    TurnReads(s, p);
  }

  lemma StartKeeps(s: State, p: nat, n: nat)
    requires Inv(s) && Enabled(s, StartRead(p, n))
    ensures Inv(Do(s, StartRead(p, n)))
  {
    hide Share, Chars;
    NoShare(s.taken, s.calls);
  }

  lemma Keeps(s: State, e: Event)
    requires Inv(s) && Enabled(s, e)
    ensures Inv(Do(s, e))
  {
    hide Share, Chars, LineOf;
    match e
    case KeyPress(c) => PressKeeps(s, c);
    case Turn(p) => TurnKeeps(s, p);
    case StartRead(p, n) => StartKeeps(s, p, n);
    case Kill(p) =>
  }

  ghost predicate Runs(s: State, es: seq<Event>)
    decreases |es|
  {
    es == [] || (Enabled(s, es[0]) && Runs(Do(s, es[0]), es[1..]))
  }

  ghost function End(s: State, es: seq<Event>): (t: State)
    requires Runs(s, es)
    decreases |es|
  {
    if es == [] then s else End(Do(s, es[0]), es[1..])
  }

  /**
   In every run, with any number of readers: nothing committed is lost, taken twice or taken out
   of order, nobody is forgotten, and each read answers with at most one line.
   */
  lemma {:induction false} RunsKeep(s: State, es: seq<Event>)
    requires Inv(s) && Runs(s, es)
    ensures Inv(End(s, es))
    decreases |es|
  {
    hide Inv, Enabled, Do;
    if es != [] {
      Keeps(s, es[0]);
      RunsKeep(Do(s, es[0]), es[1..]);
    }
  }

  lemma EveryRun(es: seq<Event>)
    requires Runs(State(Input([], []), map[], {}, 0, [], [], []), es)
    ensures Inv(End(State(Input([], []), map[], {}, 0, [], [], []), es))
  {
    hide Runs, End;
    RunsKeep(State(Input([], []), map[], {}, 0, [], [], []), es);
  }
}
