/**
 Open files: the table of reference-counted files, the descriptor slots of the processes, and
 the pipes behind them, under open, pipe, dup, close, fork and exit.
 */
module OpenFiles {
  import opened Wrappers

  const NOFILE := 16

  datatype Kind = FdNone | FdPipe(pipe: nat, writable: bool) | FdInode(ip: nat)

  datatype File = File(ref: nat, kind: Kind)

  /** Which ends of a pipe are open. */
  datatype Ends = Ends(readopen: bool, writeopen: bool) {
    predicate Open(writable: bool) {
      if writable then writeopen else readopen
    }
  }

  /**
   Files, descriptor slots, the pipes there are, and for each file how many references a system
   call under way holds that are in no slot; and the history of the pipes: the page of each pipe
   ever made, which of them is the one at a page now, and those whose page has been freed.
   */
  datatype St = St(files: seq<File>, ofile: seq<seq<Option<nat>>>, pipes: map<nat, Ends>, held: seq<int>,
                   made: seq<nat>, now: map<nat, nat>, freed: seq<nat>)

  /** The slots that name file f. */
  function Slots(ofile: seq<seq<Option<nat>>>, f: nat): (s: set<(nat, nat)>) {
    set p: nat, d: nat | p < |ofile| && d < |ofile[p]| && ofile[p][d] == Some(f) :: (p, d)
  }

  ghost predicate Shaped(s: St) {
    && |s.held| == |s.files|
    && (forall p :: 0 <= p < |s.ofile| ==> |s.ofile[p]| == NOFILE)
    && (forall p, d :: 0 <= p < |s.ofile| && 0 <= d < |s.ofile[p]| && s.ofile[p][d].Some? ==>
          s.ofile[p][d].value < |s.files|)
  }

  /** Every reference is a slot, or held; a file with none is free. */
  ghost predicate RefInv(s: St)
    requires Shaped(s)
  {
    && (forall f :: 0 <= f < |s.files| ==> s.files[f].ref == |Slots(s.ofile, f)| + s.held[f])
    && (forall f :: 0 <= f < |s.files| && s.files[f].ref == 0 ==> s.files[f].kind == FdNone)
  }

  /** Some file is end w of pipe p. */
  ghost predicate Named(s: St, p: nat, w: bool) {
    exists f :: 0 <= f < |s.files| && s.files[f].kind == FdPipe(p, w)
  }

  /** An end of a pipe is open exactly if one file, and one only, is that end. */
  ghost predicate PipeInv(s: St) {
    && (forall f :: 0 <= f < |s.files| && s.files[f].kind.FdPipe? ==>
          s.files[f].kind.pipe in s.pipes && s.pipes[s.files[f].kind.pipe].Open(s.files[f].kind.writable))
    && (forall f, g :: 0 <= f < g < |s.files| && s.files[f].kind.FdPipe? ==> s.files[f].kind != s.files[g].kind)
    && (forall p, w :: p in s.pipes && s.pipes[p].Open(w) ==> Named(s, p, w))
  }

  /**
   Every pipe ever made is there still, with an end open, or its page has been freed, once; a page
   may be that of many pipes, one after another.
   */
  ghost predicate FreedInv(s: St) {
    && s.now.Keys == s.pipes.Keys
    && (forall p :: p in s.pipes ==> s.pipes[p] != Ends(false, false))
    && (forall p :: p in s.now ==> s.now[p] < |s.made| && s.made[s.now[p]] == p && s.now[p] !in s.freed)
    && (forall i: nat :: i < |s.made| ==> i in s.freed || (s.made[i] in s.now && s.now[s.made[i]] == i))
    && (forall i: nat :: i in s.freed ==> i < |s.made|)
    && (forall a, b :: 0 <= a < b < |s.freed| ==> s.freed[a] != s.freed[b])
  }

  ghost predicate Inv(s: St) {
    Shaped(s) && RefInv(s) && PipeInv(s) && FreedInv(s)
  }

  /** Between system calls no reference is held outside the slots. */
  ghost predicate Settled(s: St) {
    Inv(s) && forall f :: 0 <= f < |s.held| ==> s.held[f] == 0
  }

  // ---------------------------------------------------------------- steps

  function SetRef(s: St, f: nat, ref: nat, held: int): (t: St)
    requires f < |s.files| && f < |s.held|
  {
    s.(files := s.files[f := s.files[f].(ref := ref)], held := s.held[f := held])
  }

  /** One more reference, not in a slot. */
  function Grab(s: St, f: nat): (t: St)
    requires f < |s.files| && f < |s.held|
  {
    SetRef(s, f, s.files[f].ref + 1, s.held[f] + 1)
  }

  /** A reference goes into an empty slot. */
  function Place(s: St, p: nat, d: nat, f: nat): (t: St)
    requires p < |s.ofile| && d < |s.ofile[p]| && f < |s.held|
  {
    s.(ofile := s.ofile[p := s.ofile[p][d := Some(f)]], held := s.held[f := s.held[f] - 1])
  }

  /** A reference is taken out of a slot. */
  function Pull(s: St, p: nat, d: nat): (t: St)
    requires p < |s.ofile| && d < |s.ofile[p]| && s.ofile[p][d].Some? && s.ofile[p][d].value < |s.held|
  {
    var f := s.ofile[p][d].value;
    s.(ofile := s.ofile[p := s.ofile[p][d := None]], held := s.held[f := s.held[f] + 1])
  }

  /** A held reference is given up; the last one closes the file. */
  function Drop(s: St, f: nat): (t: St)
    requires f < |s.files| && f < |s.held| && s.files[f].ref > 0
  {
    if s.files[f].ref > 1 then SetRef(s, f, s.files[f].ref - 1, s.held[f] - 1)
    else
      var t := s.(files := s.files[f := File(0, FdNone)], held := s.held[f := s.held[f] - 1]);
      if s.files[f].kind.FdPipe? then CloseEnd(t, s.files[f].kind.pipe, s.files[f].kind.writable) else t
  }

  /** pipeclose: the page is freed, and the pipe gone, when the other end is closed already. */
  function CloseEnd(s: St, p: nat, writable: bool): (t: St) {
    if p !in s.pipes then s
    else
      var e := if writable then s.pipes[p].(writeopen := false) else s.pipes[p].(readopen := false);
      if e != Ends(false, false) then s.(pipes := s.pipes[p := e])
      else s.(pipes := s.pipes - {p}, now := s.now - {p},
              freed := if p in s.now then s.freed + [s.now[p]] else s.freed)
  }

  /** A held file of no kind becomes an inode file, or an end of a pipe. */
  function SetKind(s: St, f: nat, k: Kind): (t: St)
    requires f < |s.files|
  {
    s.(files := s.files[f := s.files[f].(kind := k)])
  }

  /** What slot x holds, if there is such a slot. */
  function At(ofile: seq<seq<Option<nat>>>, x: (nat, nat)): (r: Option<nat>) {
    if x.0 < |ofile| && x.1 < |ofile[x.0]| then ofile[x.0][x.1] else None
  }

  lemma InSlots(ofile: seq<seq<Option<nat>>>, g: nat, x: (nat, nat))
    ensures x in Slots(ofile, g) <==> At(ofile, x) == Some(g)
  {
  }

  lemma SlotsPlaced(ofile: seq<seq<Option<nat>>>, p: nat, d: nat, f: nat, g: nat)
    requires p < |ofile| && d < |ofile[p]| && ofile[p][d].None?
    ensures |Slots(ofile[p := ofile[p][d := Some(f)]], g)| == |Slots(ofile, g)| + (if g == f then 1 else 0)
  {
    hide Slots;
    var t := ofile[p := ofile[p][d := Some(f)]];
    forall x ensures x in Slots(t, g) <==> x in Slots(ofile, g) || (x == (p, d) && g == f) {
      InSlots(t, g, x);
      InSlots(ofile, g, x);
    }
    InSlots(ofile, g, (p, d));
    if g == f {
      assert Slots(t, g) == Slots(ofile, g) + {(p, d)};
    } else {
      assert Slots(t, g) == Slots(ofile, g);
    }
  }

  lemma SlotsPulled(ofile: seq<seq<Option<nat>>>, p: nat, d: nat, g: nat)
    requires p < |ofile| && d < |ofile[p]| && ofile[p][d].Some?
    ensures |Slots(ofile[p := ofile[p][d := None]], g)| == |Slots(ofile, g)| - (if g == ofile[p][d].value then 1 else 0)
  {
    hide Slots;
    var t := ofile[p := ofile[p][d := None]];
    forall x ensures x in Slots(t, g) <==> x in Slots(ofile, g) && x != (p, d) {
      InSlots(t, g, x);
      InSlots(ofile, g, x);
    }
    InSlots(ofile, g, (p, d));
    assert Slots(t, g) == Slots(ofile, g) - {(p, d)};
  }

  lemma PlaceKeeps(s: St, p: nat, d: nat, f: nat)
    requires Inv(s) && p < |s.ofile| && d < NOFILE && s.ofile[p][d].None? && f < |s.files|
    ensures Inv(Place(s, p, d, f))
  {
    var t := Place(s, p, d, f);
    forall g | 0 <= g < |t.files| ensures t.files[g].ref == |Slots(t.ofile, g)| + t.held[g] {
      SlotsPlaced(s.ofile, p, d, f, g);
    }
  }

  lemma PullKeeps(s: St, p: nat, d: nat)
    requires Inv(s) && p < |s.ofile| && d < NOFILE && s.ofile[p][d].Some?
    ensures Inv(Pull(s, p, d))
  {
    var t := Pull(s, p, d);
    forall g | 0 <= g < |t.files| ensures t.files[g].ref == |Slots(t.ofile, g)| + t.held[g] {
      SlotsPulled(s.ofile, p, d, g);
    }
  }

  lemma GrabKeeps(s: St, f: nat)
    requires Inv(s) && f < |s.files|
    ensures Inv(Grab(s, f))
  {
    hide Slots;
    var t := Grab(s, f);
    SameKinds(s, t);
  }

  ghost predicate SameHistory(s: St, t: St) {
    t.pipes == s.pipes && t.made == s.made && t.now == s.now && t.freed == s.freed
  }

  lemma SameKinds(s: St, t: St)
    requires PipeInv(s) && FreedInv(s) && |t.files| == |s.files| && SameHistory(s, t)
    requires forall f :: 0 <= f < |s.files| ==> t.files[f].kind == s.files[f].kind
    ensures PipeInv(t) && FreedInv(t)
  {
    forall p, w | p in t.pipes && t.pipes[p].Open(w) ensures Named(t, p, w) {
      assert Named(s, p, w);
      var f :| 0 <= f < |s.files| && s.files[f].kind == FdPipe(p, w);
      assert t.files[f].kind == FdPipe(p, w);
    }
  }

  lemma DropKeeps(s: St, f: nat)
    requires Inv(s) && f < |s.files| && s.files[f].ref > 0
    ensures Inv(Drop(s, f))
  {
    hide Slots;
    var t := Drop(s, f);
    if s.files[f].ref > 1 {
      SameKinds(s, t);
    } else if s.files[f].kind.FdPipe? {
      LastPipe(s, t, f);
    } else {
      LastOther(s, t, f);
    }
  }

  lemma LastOther(s: St, t: St, f: nat)
    requires PipeInv(s) && FreedInv(s) && f < |s.files| && !s.files[f].kind.FdPipe?
    requires t.files == s.files[f := File(0, FdNone)] && SameHistory(s, t)
    ensures PipeInv(t) && FreedInv(t)
  {
    forall p, w | p in t.pipes && t.pipes[p].Open(w) ensures Named(t, p, w) {
      assert Named(s, p, w);
      var g :| 0 <= g < |s.files| && s.files[g].kind == FdPipe(p, w);
      assert t.files[g].kind == FdPipe(p, w);
    }
  }

  lemma LastPipe(s: St, t: St, f: nat)
    requires PipeInv(s) && FreedInv(s) && f < |s.files| && s.files[f].kind.FdPipe?
    requires var k := s.files[f].kind;
      t == CloseEnd(s.(files := s.files[f := File(0, FdNone)], held := t.held), k.pipe, k.writable)
    ensures PipeInv(t) && FreedInv(t)
  {
    hide FreedInv;
    LastPipeEnds(s, t, f);
    LastPipeFreed(s, t, s.files[f].kind.pipe, s.files[f].kind.writable);
  }

  lemma LastPipeFreed(s: St, t: St, p: nat, w: bool)
    requires FreedInv(s) && p in s.pipes && s.pipes[p].Open(w)
    requires SameHistory(CloseEnd(s, p, w), t)
    ensures FreedInv(t)
  {
  }

  lemma LastPipeEnds(s: St, t: St, f: nat)
    requires PipeInv(s) && f < |s.files| && s.files[f].kind.FdPipe?
    requires var k := s.files[f].kind;
      t == CloseEnd(s.(files := s.files[f := File(0, FdNone)], held := t.held), k.pipe, k.writable)
    ensures PipeInv(t)
  {
    var k := s.files[f].kind;
    forall p, w | p in t.pipes && t.pipes[p].Open(w) ensures Named(t, p, w) {
      assert s.pipes[p].Open(w) && FdPipe(p, w) != k;
      assert Named(s, p, w);
      var g :| 0 <= g < |s.files| && s.files[g].kind == FdPipe(p, w);
      assert t.files[g].kind == FdPipe(p, w);
    }
    forall g | 0 <= g < |t.files| && t.files[g].kind.FdPipe?
      ensures t.files[g].kind.pipe in t.pipes && t.pipes[t.files[g].kind.pipe].Open(t.files[g].kind.writable)
    {
      assert g != f && s.files[g].kind != k;
    }
  }

  /** Files f and g, held and of no kind, become the two ends of a new pipe. */
  function MakePipe(s: St, f: nat, g: nat, page: nat): (t: St)
    requires f < |s.files| && g < |s.files|
  {
    SetKind(SetKind(s, f, FdPipe(page, false)), g, FdPipe(page, true)).(
      pipes := s.pipes[page := Ends(true, true)], made := s.made + [page], now := s.now[page := |s.made|])
  }

  lemma MakePipeKeeps(s: St, f: nat, g: nat, page: nat)
    requires Inv(s) && f < |s.files| && g < |s.files| && f != g && page !in s.pipes
    requires s.files[f].kind == FdNone && s.files[g].kind == FdNone && s.files[f].ref > 0 && s.files[g].ref > 0
    ensures Inv(MakePipe(s, f, g, page))
  {
    hide Slots, PipeInv, FreedInv;
    MakePipeEnds(s, f, g, page);
    MadeKeeps(s, MakePipe(s, f, g, page), page);
  }

  lemma MadeKeeps(s: St, t: St, page: nat)
    requires FreedInv(s) && page !in s.pipes && t.pipes == s.pipes[page := Ends(true, true)]
    requires t.made == s.made + [page] && t.now == s.now[page := |s.made|] && t.freed == s.freed
    ensures FreedInv(t)
  {
  }

  lemma MakePipeEnds(s: St, f: nat, g: nat, page: nat)
    requires PipeInv(s) && f < |s.files| && g < |s.files| && f != g && page !in s.pipes
    requires s.files[f].kind == FdNone && s.files[g].kind == FdNone
    ensures PipeInv(MakePipe(s, f, g, page))
  {
    var t := MakePipe(s, f, g, page);
    forall p, w | p in t.pipes && t.pipes[p].Open(w) ensures Named(t, p, w) {
      if p == page {
        assert t.files[if w then g else f].kind == FdPipe(p, w);
      } else {
        assert Named(s, p, w);
        var h :| 0 <= h < |s.files| && s.files[h].kind == FdPipe(p, w);
        assert t.files[h].kind == FdPipe(p, w);
      }
    }
  }

  lemma InodeKeeps(s: St, f: nat, ip: nat)
    requires Inv(s) && f < |s.files| && s.files[f].kind == FdNone && s.files[f].ref > 0
    ensures Inv(SetKind(s, f, FdInode(ip)))
  {
    hide Slots;
    var t := SetKind(s, f, FdInode(ip));
    forall p, w | p in t.pipes && t.pipes[p].Open(w) ensures Named(t, p, w) {
      assert Named(s, p, w);
      var h :| 0 <= h < |s.files| && s.files[h].kind == FdPipe(p, w);
      assert t.files[h].kind == FdPipe(p, w);
    }
  }

  /** The lowest empty slot of a process from d on. */
  function FreeSlot(fds: seq<Option<nat>>, d: nat): (r: Option<nat>)
    requires d <= |fds|
    ensures match r
            case Some(e) => d <= e < |fds| && fds[e].None? && forall k :: d <= k < e ==> fds[k].Some?
            case None => forall k :: d <= k < |fds| ==> fds[k].Some?
    decreases |fds| - d
  {
    if d == |fds| then None else if fds[d].None? then Some(d) else FreeSlot(fds, d + 1)
  }

  class Table {
    var files: seq<File>
    var ofile: seq<seq<Option<nat>>>
    var pipes: map<nat, Ends>
    ghost var held: seq<int>
    ghost var made: seq<nat>
    ghost var now: map<nat, nat>
    ghost var freed: seq<nat>

    ghost function S(): (s: St)
      reads this
    {
      St(files, ofile, pipes, held, made, now, freed)
    }

    /** No file open. */
    constructor (nfile: nat, nproc: nat)
      ensures Settled(S()) && |files| == nfile && |ofile| == nproc && made == []
    {
      files := seq(nfile, _ => File(0, FdNone));
      ofile := seq(nproc, _ => seq(NOFILE, _ => None));
      pipes := map[];
      made := [];
      now := map[];
      freed := [];
      held := seq(nfile, _ => 0);
      new;
      forall f | 0 <= f < |files| ensures |Slots(ofile, f)| == 0 {
        assert Slots(ofile, f) == {};
      }
    }

    method Filealloc() returns (r: Option<nat>)
      requires Inv(S())
      modifies this`files, this`held
      ensures Inv(S())
      ensures r.None? ==> S() == old(S()) && forall f :: 0 <= f < |files| ==> files[f].ref > 0
      ensures r.Some? ==>
                r.value < |old(files)| && old(files)[r.value] == File(0, FdNone) && S() == Grab(old(S()), r.value)
      ensures r.Some? ==>
        files == old(files)[r.value := File(1, FdNone)] && forall f :: 0 <= f < r.value ==> old(files)[f].ref > 0
    {
      hide Slots, RefInv, PipeInv, FreedInv;
      var f := 0;
      while f < |files|
        invariant 0 <= f <= |files| && S() == old(S())
        invariant forall g :: 0 <= g < f ==> files[g].ref > 0
      {
        if files[f].ref == 0 {
          FreeIsNone(S(), f);
          GrabKeeps(S(), f);
          files := files[f := files[f].(ref := 1)];
          held := held[f := held[f] + 1];
          return Some(f);
        }
        f := f + 1;
      }
      r := None;
    }

    /** filedup; a file without references is the panic. */
    method Filedup(f: nat)
      requires Inv(S()) && f < |files| && files[f].ref >= 1
      modifies this`files, this`held
      ensures Inv(S()) && S() == Grab(old(S()), f)
      ensures files == old(files)[f := File(old(files)[f].ref + 1, old(files)[f].kind)]
    {
      hide Slots, RefInv, PipeInv, FreedInv;
      GrabKeeps(S(), f);
      files := files[f := files[f].(ref := files[f].ref + 1)];
      held := held[f := held[f] + 1];
    }

    /** fileclose; a file without references is the panic. */
    method Fileclose(f: nat)
      requires Inv(S()) && f < |files| && files[f].ref >= 1
      modifies this`files, this`pipes, this`held, this`made, this`now, this`freed
      ensures Inv(S()) && S() == Drop(old(S()), f)
      ensures Closed(old(files), files, old(pipes), pipes, f)
    {
      hide Slots, RefInv, PipeInv, FreedInv;
      PipeThere(S(), f);
      DropKeeps(S(), f);
      held := held[f := held[f] - 1];
      if files[f].ref > 1 {
        files := files[f := files[f].(ref := files[f].ref - 1)];
        return;
      }
      var ff := files[f];
      files := files[f := File(0, FdNone)];
      if ff.kind.FdPipe? {
        Pipeclose(ff.kind.pipe, ff.kind.writable);
      }
    }

    /** Closes one end of a pipe; the page is freed if the other end is closed too. */
    method Pipeclose(p: nat, writable: bool)
      modifies this`pipes, this`now, this`freed
      ensures S() == CloseEnd(old(S()), p, writable)
      ensures old(FreedInv(S()) && p in pipes && pipes[p].Open(writable)) ==>
        && FreedInv(S()) && (p in pipes <==> old(pipes)[p].Open(!writable))
        && freed == if p in pipes then old(freed) else old(freed) + [old(now)[p]]
      ensures p in old(pipes) && old(pipes)[p].Open(writable) ==>
        pipes == if old(pipes)[p].Open(!writable) then old(pipes)[p := Ends(writable, !writable)] else old(pipes) - {p}
      ensures p !in old(pipes) ==> pipes == old(pipes)
    {
      if p in pipes {
        if writable {
          pipes := pipes[p := pipes[p].(writeopen := false)];
        } else {
          pipes := pipes[p := pipes[p].(readopen := false)];
        }
        if !pipes[p].readopen && !pipes[p].writeopen {
          pipes := pipes - {p};
          freed := if p in now then freed + [now[p]] else freed;
          now := now - {p};
        }
      }
      assert pipes == CloseEnd(old(S()), p, writable).pipes;
      if old(FreedInv(S()) && p in pipes && pipes[p].Open(writable)) {
        LastPipeFreed(old(S()), S(), p, writable);
      }
    }

    method Fdalloc(p: nat, f: nat) returns (fd: int)
      requires Inv(S()) && p < |ofile| && f < |files|
      modifies this`ofile, this`held
      ensures Inv(S())
      ensures match FreeSlot(old(ofile)[p], 0)
              case Some(d) => fd == d && S() == Place(old(S()), p, d, f)
              case None => fd == -1 && S() == old(S())
      ensures fd == -1 <==> forall d :: 0 <= d < NOFILE ==> old(ofile)[p][d].Some?
      ensures fd != -1 ==>
        && 0 <= fd < NOFILE && old(ofile)[p][fd].None? && (forall d :: 0 <= d < fd ==> old(ofile)[p][d].Some?)
        && ofile == old(ofile)[p := old(ofile)[p][fd := Some(f)]]
    {
      hide Slots, RefInv, PipeInv, FreedInv;
      fd := 0;
      while fd < NOFILE
        invariant 0 <= fd <= NOFILE && S() == old(S()) && FreeSlot(ofile[p], 0) == FreeSlot(ofile[p], fd)
      {
        if ofile[p][fd].None? {
          PlaceKeeps(S(), p, fd, f);
          ofile := ofile[p := ofile[p][fd := Some(f)]];
          held := held[f := held[f] - 1];
          return;
        }
        fd := fd + 1;
      }
      fd := -1;
    }

    /** dup: the lowest empty slot comes to name the same file; otherwise nothing changes. */
    method SysDup(p: nat, fd: int) returns (r: int)
      requires Settled(S()) && p < |ofile|
      modifies this`files, this`ofile, this`held
      ensures Settled(S())
      ensures r == -1 ==> S() == old(S()) && (BadFd(old(ofile)[p], fd) || FreeSlot(old(ofile)[p], 0).None?)
      ensures r != -1 ==>
        && !BadFd(old(ofile)[p], fd) && FreeSlot(old(ofile)[p], 0) == Some(r)
        && ofile == old(ofile)[p := old(ofile)[p][r := old(ofile)[p][fd]]]
        && var f := old(ofile)[p][fd].value;
           f < |old(files)| && files == old(files)[f := File(old(files)[f].ref + 1, old(files)[f].kind)]
    {
      hide Slots, PipeInv, FreedInv;
      if BadFd(ofile[p], fd) {
        return -1;
      }
      var f := ofile[p][fd].value;
      NamedHasRef(S(), p, fd);
      r := Fdalloc(p, f);
      if r < 0 {
        return;
      }
      Filedup(f);
    }

    /** close: the slot is emptied. */
    method SysClose(p: nat, fd: int) returns (r: int)
      requires Settled(S()) && p < |ofile|
      modifies this`files, this`ofile, this`pipes, this`held, this`made, this`now, this`freed
      ensures Settled(S()) && (r == -1 <==> BadFd(old(ofile)[p], fd)) && (r == -1 ==> S() == old(S()))
      ensures r != -1 ==>
        && r == 0 && ofile == old(ofile)[p := old(ofile)[p][fd := None]]
        && Closed(old(files), files, old(pipes), pipes, old(ofile)[p][fd].value)
    {
      hide Slots, PipeInv, FreedInv;
      if BadFd(ofile[p], fd) {
        return -1;
      }
      var f := ofile[p][fd].value;
      NamedHasRef(S(), p, fd);
      PullKeeps(S(), p, fd);
      ofile := ofile[p := ofile[p][fd := None]];
      held := held[f := held[f] + 1];
      Fileclose(f);
      r := 0;
    }

    /** The tail of open, for inode ip: a new file in the lowest empty slot, or no change at all. */
    method SysOpen(p: nat, ip: nat) returns (fd: int)
      requires Settled(S()) && p < |ofile|
      modifies this`files, this`ofile, this`pipes, this`held, this`made, this`now, this`freed
      ensures Settled(S())
      ensures fd == -1 <==>
        FreeSlot(old(ofile)[p], 0).None? || forall f :: 0 <= f < |old(files)| ==> old(files)[f].ref > 0
      ensures fd == -1 ==> S() == old(S())
      ensures fd != -1 ==>
        && FreeSlot(old(ofile)[p], 0) == Some(fd)
        && exists f :: 0 <= f < |old(files)| && old(files)[f].ref == 0 && files == old(files)[f := File(1, FdInode(ip))]
                       && (forall g :: 0 <= g < f ==> old(files)[g].ref > 0)
                       && ofile == old(ofile)[p := old(ofile)[p][fd := Some(f)]]
    {
      hide Slots, PipeInv, FreedInv;
      var f := Filealloc();
      if f.None? {
        return -1;
      }
      fd := Fdalloc(p, f.value);
      if fd < 0 {
        Fileclose(f.value);
        SameAgain(old(S()), S(), f.value);
        return;
      }
      InodeKeeps(S(), f.value, ip);
      files := files[f.value := files[f.value].(kind := FdInode(ip))];
    }

    /** pipealloc, given the page that kalloc returns. */
    method Pipealloc(page: Option<nat>) returns (r: Option<(nat, nat)>)
      requires Settled(S()) && (page.Some? ==> page.value !in pipes)
      modifies this`files, this`pipes, this`held, this`made, this`now, this`freed
      ensures Inv(S())
      ensures r.None? ==> S() == old(S()) && (page.None? || !TwoFreeFiles(old(files)))
      ensures r.Some? ==>
        && page.Some? && r.value.0 < |old(files)| && r.value.1 < |old(files)| && r.value.0 != r.value.1
        && old(files)[r.value.0] == File(0, FdNone) && old(files)[r.value.1] == File(0, FdNone)
        && S() == MakePipe(Grab(Grab(old(S()), r.value.0), r.value.1), r.value.0, r.value.1, page.value)
        && files == old(files)[r.value.0 := File(1, FdPipe(page.value, false))]
                              [r.value.1 := File(1, FdPipe(page.value, true))]
        && pipes == old(pipes)[page.value := Ends(true, true)]
    {
      hide Slots, RefInv, PipeInv, FreedInv;
      var f0 := Filealloc();
      if f0.None? {
        return None;
      }
      var f1 := Filealloc();
      if f1.None? {
        Fileclose(f0.value);
        SameAgain(old(S()), S(), f0.value);
        return None;
      }
      if page.None? {
        Fileclose(f0.value);
        Fileclose(f1.value);
        SameTwice(old(S()), S(), f0.value, f1.value);
        return None;
      }
      MakePipeKeeps(S(), f0.value, f1.value, page.value);
      pipes := pipes[page.value := Ends(true, true)];
      now := now[page.value := |made|];
      made := made + [page.value];
      files := files[f0.value := files[f0.value].(kind := FdPipe(page.value, false))];
      files := files[f1.value := files[f1.value].(kind := FdPipe(page.value, true))];
      r := Some((f0.value, f1.value));
    }

    /** Slots for both ends of a new pipe, or none. */
    method PipeFds(p: nat, f: nat, g: nat) returns (ok: bool, fd0: int, fd1: int)
      requires Inv(S()) && p < |ofile| && f < |files| && g < |files| && f != g
      modifies this`ofile, this`held
      ensures Inv(S())
      ensures ok <==> TwoFreeSlots(old(ofile)[p])
      ensures !ok ==> S() == old(S())
      ensures ok ==>
        && 0 <= fd0 < fd1 < NOFILE && FreeSlot(old(ofile)[p], 0) == Some(fd0)
        && FreeSlot(old(ofile)[p], fd0 + 1) == Some(fd1)
        && S() == Place(Place(old(S()), p, fd0, f), p, fd1, g)
    {
      hide Slots, PipeInv, FreedInv, RefInv;
      fd0 := Fdalloc(p, f);
      if fd0 < 0 {
        return false, -1, -1;
      }
      NextFree(old(ofile)[p], fd0, f);
      fd1 := Fdalloc(p, g);
      if fd1 < 0 {
        PullKeeps(S(), p, fd0);
        ofile := ofile[p := ofile[p][fd0 := None]];
        held := held[f := held[f] + 1];
        assert ofile[p] == old(ofile)[p];
        assert ofile == old(ofile) && held == old(held);
        return false, fd0, fd1;
      }
      ok := true;
    }

    /**
     pipe: two new files, the ends of a new pipe, in the two lowest empty slots; or the slots and
     files are as before.
     */
    method SysPipe(p: nat, page: Option<nat>) returns (r: int, fd0: int, fd1: int)
      requires Settled(S()) && p < |ofile| && (page.Some? ==> page.value !in pipes)
      modifies this`files, this`ofile, this`pipes, this`held, this`made, this`now, this`freed
      ensures Settled(S()) && (r == 0 || r == -1)
      ensures r == -1 ==> ofile == old(ofile) && files == old(files) && pipes == old(pipes)
      ensures r == -1 ==> page.None? || !TwoFreeFiles(old(files)) || !TwoFreeSlots(old(ofile)[p])
      ensures r == 0 ==> page.Some? && exists f, g :: PipeMade(old(S()), S(), p, f, g, page.value, fd0, fd1)
    {
      hide Slots, PipeInv, FreedInv, RefInv;
      var ends := Pipealloc(page);
      if ends.None? {
        return -1, -1, -1;
      }
      var f, g := ends.value.0, ends.value.1;
      var ok;
      ok, fd0, fd1 := PipeFds(p, f, g);
      if !ok {
        FreshRefs(old(S()), S(), f, g, page.value);
        Fileclose(f);
        Fileclose(g);
        PipeUndone(old(S()), S(), f, g, page.value);
        return -1, fd0, fd1;
      }
      assert PipeMade(old(S()), S(), p, f, g, page.value, fd0, fd1);
      r := 0;
    }

    /** The descriptors of a new process, for fork and fork2: those of its parent. */
    method Fork(p: nat, np: nat)
      requires Settled(S()) && p < |ofile| && np < |ofile| && np != p
      requires forall d :: 0 <= d < NOFILE ==> ofile[np][d].None?
      modifies this`files, this`ofile, this`held
      ensures Settled(S()) && ofile == old(ofile)[np := old(ofile)[p]] && SameKind(old(files), files)
    {
      hide Slots, PipeInv, FreedInv;
      var i := 0;
      while i < NOFILE
        invariant 0 <= i <= NOFILE && Settled(S()) && |ofile| == |old(ofile)| && SameKind(old(files), files)
        invariant forall q :: 0 <= q < |ofile| && q != np ==> ofile[q] == old(ofile)[q]
        invariant forall d :: 0 <= d < NOFILE ==> ofile[np][d] == if d < i then old(ofile)[p][d] else None
      {
        if ofile[p][i].Some? {
          var f := ofile[p][i].value;
          NamedHasRef(S(), p, i);
          Filedup(f);
          PlaceKeeps(S(), np, i, f);
          ofile := ofile[np := ofile[np][i := Some(f)]];
          held := held[f := held[f] - 1];
        }
        i := i + 1;
      }
      assert ofile[np] == old(ofile)[p];
    }

    /** exit closes every descriptor of the process. */
    method Exit(p: nat)
      requires Settled(S()) && p < |ofile|
      modifies this`files, this`ofile, this`pipes, this`held, this`made, this`now, this`freed
      ensures Settled(S()) && ofile == old(ofile)[p := NoFiles()] && SameKind(old(files), files)
    {
      hide Slots, PipeInv, FreedInv;
      var fd := 0;
      while fd < NOFILE
        invariant 0 <= fd <= NOFILE && Settled(S()) && |ofile| == |old(ofile)| && SameKind(old(files), files)
        invariant forall q :: 0 <= q < |ofile| && q != p ==> ofile[q] == old(ofile)[q]
        invariant forall d :: 0 <= d < NOFILE ==> ofile[p][d] == if d < fd then None else old(ofile)[p][d]
      {
        if ofile[p][fd].Some? {
          var r := SysClose(p, fd);
        }
        fd := fd + 1;
      }
      assert ofile[p] == NoFiles();
    }
  }

  /** Every file still referred to is what it was. */
  ghost predicate SameKind(before: seq<File>, after: seq<File>) {
    |after| == |before| && forall f :: 0 <= f < |after| && after[f].ref > 0 ==> after[f].kind == before[f].kind
  }

  /**
   File f has one reference less; with the last one it is free, and if it was an end of a pipe that
   end is closed, and the pipe gone unless its other end is open.
   */
  ghost predicate Closed(files: seq<File>, files': seq<File>, pipes: map<nat, Ends>, pipes': map<nat, Ends>, f: nat) {
    && f < |files| && files[f].ref >= 1
    && files' == files[f := if files[f].ref > 1 then File(files[f].ref - 1, files[f].kind) else File(0, FdNone)]
    && if files[f].ref > 1 || !files[f].kind.FdPipe? then pipes' == pipes
       else
         var p, w := files[f].kind.pipe, files[f].kind.writable;
         && p in pipes
         && pipes' == if pipes[p].Open(!w) then pipes[p := Ends(w, !w)] else pipes - {p}
  }

  lemma PipeThere(s: St, f: nat)
    requires Inv(s) && f < |s.files|
    ensures s.files[f].kind.FdPipe? ==>
      s.files[f].kind.pipe in s.pipes && s.pipes[s.files[f].kind.pipe].Open(s.files[f].kind.writable)
  {
  }

  predicate TwoFreeFiles(files: seq<File>) {
    exists f, g :: 0 <= f < g < |files| && files[f].ref == 0 && files[g].ref == 0
  }

  predicate TwoFreeSlots(fds: seq<Option<nat>>) {
    exists a, b :: 0 <= a < b < |fds| && fds[a].None? && fds[b].None?
  }

  /** The descriptors of a process that has none open. */
  function NoFiles(): (fds: seq<Option<nat>>) {
    seq(NOFILE, _ => None)
  }

  /** Files f and g, free in s, are in t the ends of a new pipe, in the two lowest empty slots. */
  ghost predicate PipeMade(s: St, t: St, p: nat, f: nat, g: nat, page: nat, fd0: int, fd1: int) {
    && p < |s.ofile| && |s.ofile[p]| == NOFILE && 0 <= fd0 < fd1 < NOFILE
    && FreeSlot(s.ofile[p], 0) == Some(fd0) && FreeSlot(s.ofile[p], fd0 + 1) == Some(fd1)
    && f < |s.files| && g < |s.files| && f != g && s.files[f].ref == 0 && s.files[g].ref == 0
    && t.files == s.files[f := File(1, FdPipe(page, false))][g := File(1, FdPipe(page, true))]
    && t.ofile == s.ofile[p := s.ofile[p][fd0 := Some(f)][fd1 := Some(g)]]
    && t.pipes == s.pipes[page := Ends(true, true)]
    && t.made == s.made + [page] && t.now == s.now[page := |s.made|] && t.freed == s.freed
  }

  /** After the lowest empty slot is filled, the next one is the lowest. */
  lemma NextFree(fds: seq<Option<nat>>, d: nat, f: nat)
    requires d < |fds| && FreeSlot(fds, 0) == Some(d)
    ensures FreeSlot(fds[d := Some(f)], 0) == FreeSlot(fds, d + 1)
  {
    var r := fds[d := Some(f)];
    var a, b := FreeSlot(r, 0), FreeSlot(fds, d + 1);
    assert forall k :: 0 <= k < |fds| && k != d ==> r[k] == fds[k];
    assert a.Some? ==> fds[a.value].None?;
    assert b.Some? ==> r[b.value].None?;
  }

  lemma FreshRefs(s: St, t: St, f: nat, g: nat, page: nat)
    requires f < |s.files| && g < |s.files| && f != g && |s.held| == |s.files|
    requires s.files[f] == File(0, FdNone) && s.files[g] == File(0, FdNone)
    requires t == MakePipe(Grab(Grab(s, f), g), f, g, page)
    ensures t.files[f].ref == 1 && t.files[g].ref == 1 && Drop(t, f).files[g].ref == 1
  {
  }

  lemma PipeUndone(s: St, t: St, f: nat, g: nat, page: nat)
    requires f < |s.files| && g < |s.files| && f != g && |s.held| == |s.files|
    requires s.files[f] == File(0, FdNone) && s.files[g] == File(0, FdNone)
    requires page !in s.pipes
    requires var u := MakePipe(Grab(Grab(s, f), g), f, g, page);
             u.files[f].ref == 1 && Drop(u, f).files[g].ref == 1 && t == Drop(Drop(u, f), g)
    ensures t.files == s.files && t.held == s.held && t.ofile == s.ofile && t.pipes == s.pipes
  {
    assert t.files == s.files && t.held == s.held && t.pipes == s.pipes;
  }

  /** Giving back a file just allocated leaves everything as it was. */
  lemma SameAgain(s: St, t: St, f: nat)
    requires f < |s.files| && f < |s.held| && s.files[f] == File(0, FdNone) && t == Drop(Grab(s, f), f)
    ensures t == s
  {
    assert t.files == s.files && t.held == s.held;
  }

  lemma SameTwice(s: St, t: St, f: nat, g: nat)
    requires f < |s.files| && g < |s.files| && f != g && |s.held| == |s.files|
    requires s.files[f] == File(0, FdNone) && s.files[g] == File(0, FdNone)
    requires t == Drop(Drop(Grab(Grab(s, f), g), f), g)
    ensures t == s
  {
    assert t.files == s.files && t.held == s.held;
  }

  predicate BadFd(fds: seq<Option<nat>>, fd: int) {
    fd < 0 || fd >= |fds| || fds[fd].None?
  }

  lemma FreeIsNone(s: St, f: nat)
    requires Inv(s) && f < |s.files| && s.files[f].ref == 0
    ensures s.files[f] == File(0, FdNone)
  {
  }

  lemma NamedHasRef(s: St, p: nat, d: nat)
    requires Settled(s) && p < |s.ofile| && d < NOFILE && s.ofile[p][d].Some?
    ensures s.ofile[p][d].value < |s.files| && s.files[s.ofile[p][d].value].ref >= 1
  {
    var f := s.ofile[p][d].value;
    assert (p, d) in Slots(s.ofile, f);
  }
}
