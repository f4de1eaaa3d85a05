/**
 Message queues: a list of nodes between head and tail pointers, the oldest message of a type
 taken out of its middle, and receivers that sleep until there is a message for them.
 */
module MsgQueue {
  import opened Wrappers

  const INT := 0x8000_0000
  const UINT := 0x1_0000_0000
  const LONG := 4
  const PGSIZE := 4096
  const HEADER := 12              // next, msgtyp and length
  const ROOM := PGSIZE - HEADER   // what a node's page has for data

  type Page = s: seq<int> | |s| == ROOM witness seq(ROOM, _ => 0)

  /** What a node holds: a type, the signed size given to msgsnd, and the rest of its page. */
  datatype Msg = Msg(typ: int, length: int, page: Page)

  /** A receiver that asks for type want accepts a message; 0 asks for any. */
  predicate Accepts(want: int, m: Msg) {
    want == 0 || m.typ == want
  }

  /** The first accepted message from k on. */
  function FirstFrom(msgs: seq<Msg>, want: int, k: nat): (r: Option<nat>)
    requires k <= |msgs|
    ensures match r
            case Some(j) => k <= j < |msgs| && Accepts(want, msgs[j])
                            && forall i :: k <= i < j ==> !Accepts(want, msgs[i])
            case None => forall i :: k <= i < |msgs| ==> !Accepts(want, msgs[i])
    decreases |msgs| - k
  {
    if k == |msgs| then None else if Accepts(want, msgs[k]) then Some(k) else FirstFrom(msgs, want, k + 1)
  }

  function RemoveAt<T>(s: seq<T>, k: nat): (r: seq<T>)
    requires k < |s|
    ensures |r| == |s| - 1
  {
    s[..k] + s[k + 1..]
  }

  // ---------------------------------------------------------------- the list

  const NULL: nat := 0

  /** A node at some address; next is an address or NULL. */
  datatype Node = Node(next: nat, msg: Msg)

  /** The k-th node of the chain, NULL before and after it. */
  function At(chain: seq<nat>, k: int): (a: nat) {
    if 0 <= k < |chain| then chain[k] else NULL
  }

  /** head leads through chain to tail. */
  ghost predicate Linked(nodes: map<nat, Node>, head: nat, tail: nat, chain: seq<nat>) {
    && head == At(chain, 0) && tail == At(chain, |chain| - 1)
    && (forall k :: 0 <= k < |chain| ==> chain[k] != NULL && chain[k] in nodes)
    && (forall k :: 0 <= k < |chain| ==> nodes[chain[k]].next == At(chain, k + 1))
    && (forall j, k :: 0 <= j < k < |chain| ==> chain[j] != chain[k])
  }

  function Msgs(nodes: map<nat, Node>, chain: seq<nat>): (r: seq<Msg>)
    requires forall k :: 0 <= k < |chain| ==> chain[k] in nodes
    ensures |r| == |chain|
  {
    seq(|chain|, k requires 0 <= k < |chain| => nodes[chain[k]].msg)
  }

  /** Appending a node behind the last one. */
  lemma Appended(nodes: map<nat, Node>, head: nat, tail: nat, chain: seq<nat>, a: nat, m: Msg, n: map<nat, Node>)
    requires Linked(nodes, head, tail, chain) && a != NULL && a !in nodes
    requires n == if head == NULL then nodes[a := Node(NULL, m)]
                  else nodes[a := Node(NULL, m)][tail := nodes[tail].(next := a)]
    ensures Linked(n, if head == NULL then a else head, a, chain + [a])
    ensures Msgs(n, chain + [a]) == Msgs(nodes, chain) + [m]
  {
    var c := chain + [a];
    assert chain == [] <==> head == NULL;
    forall k | 0 <= k < |c| ensures c[k] in n && n[c[k]].next == At(c, k + 1) {
      LinkAt(nodes, head, tail, chain, k);
    }
    forall k | 0 <= k < |c| ensures n[c[k]].msg == if k < |chain| then nodes[chain[k]].msg else m {
      assert chain != [] ==> tail == chain[|chain| - 1];
    }
    forall j, k | 0 <= j < k < |c| ensures c[j] != c[k] {
    }
  }

  lemma LinkAt(nodes: map<nat, Node>, head: nat, tail: nat, chain: seq<nat>, k: nat)
    requires Linked(nodes, head, tail, chain)
    ensures k < |chain| ==>
              chain[k] in nodes && nodes[chain[k]].next == At(chain, k + 1) && (chain[k] == tail <==> k == |chain| - 1)
  {
  }

  lemma ChainApart(nodes: map<nat, Node>, head: nat, tail: nat, chain: seq<nat>, j: nat, k: nat)
    requires Linked(nodes, head, tail, chain) && j < |chain| && k < |chain| && j != k
    ensures chain[j] != chain[k]
  {
  }

  /** The nodes after the k-th one is unlinked. */
  function Unlink(nodes: map<nat, Node>, chain: seq<nat>, k: nat): (n: map<nat, Node>)
    requires k < |chain| && (k > 0 ==> chain[k - 1] in nodes)
  {
    (if k == 0 then nodes else nodes[chain[k - 1] := nodes[chain[k - 1]].(next := At(chain, k + 1))]) - {chain[k]}
  }

  lemma UnlinkAt(nodes: map<nat, Node>, head: nat, tail: nat, chain: seq<nat>, k: nat, j: nat)
    requires Linked(nodes, head, tail, chain) && k < |chain| && j < |chain| - 1
    ensures var r, n := RemoveAt(chain, k), Unlink(nodes, chain, k);
      && r[j] == (if j < k then chain[j] else chain[j + 1]) && r[j] in n
      && n[r[j]].next == At(r, j + 1) && n[r[j]].msg == nodes[r[j]].msg
  {
    hide RemoveAt, Linked;
    if k > 0 {
      LinkAt(nodes, head, tail, chain, k - 1);
    }
    var r, n := RemoveAt(chain, k), Unlink(nodes, chain, k);
    var i := if j < k then j else j + 1;
    RemoveIndex(chain, k, j);
    if j + 1 < |r| {
      RemoveIndex(chain, k, j + 1);
    }
    LinkAt(nodes, head, tail, chain, i);
    ChainApart(nodes, head, tail, chain, i, k);
    if k > 0 && i != k - 1 {
      ChainApart(nodes, head, tail, chain, i, k - 1);
    }
  }

  lemma RemoveIndex<T>(s: seq<T>, k: nat, j: nat)
    requires k < |s| && j < |s| - 1
    ensures RemoveAt(s, k)[j] == s[if j < k then j else j + 1]
  {
  }

  /** Unlinking the k-th node. */
  lemma Unlinked(nodes: map<nat, Node>, head: nat, tail: nat, chain: seq<nat>, k: nat)
    requires Linked(nodes, head, tail, chain) && k < |chain|
    ensures Linked(Unlink(nodes, chain, k), if k == 0 then At(chain, 1) else head,
                   if chain[k] == tail then At(chain, k - 1) else tail, RemoveAt(chain, k))
    ensures Msgs(Unlink(nodes, chain, k), RemoveAt(chain, k)) == RemoveAt(Msgs(nodes, chain), k)
  {
    hide Unlink, RemoveAt, Msgs;
    var r, n := RemoveAt(chain, k), Unlink(nodes, chain, k);
    forall j | 0 <= j < |r| ensures Spliced(nodes, chain, k, r, n, j) {
      UnlinkAt(nodes, head, tail, chain, k, j);
    }
    SplicedLinked(nodes, head, tail, chain, k, r, n);
    SplicedMsgs(nodes, chain, k, r, n);
  }

  /** The j-th node of r is the node of chain that stood there or, past k, behind. */
  ghost predicate Spliced(nodes: map<nat, Node>, chain: seq<nat>, k: nat, r: seq<nat>, n: map<nat, Node>, j: nat) {
    && |r| == |chain| - 1 && j < |r| && r[j] == (if j < k then chain[j] else chain[j + 1])
    && r[j] in n && r[j] in nodes && n[r[j]].next == At(r, j + 1) && n[r[j]].msg == nodes[r[j]].msg
  }

  lemma SplicedLinked(nodes: map<nat, Node>, head: nat, tail: nat, chain: seq<nat>, k: nat,
                      r: seq<nat>, n: map<nat, Node>)
    requires Linked(nodes, head, tail, chain) && k < |chain| && |r| == |chain| - 1
    requires forall j :: 0 <= j < |r| ==> Spliced(nodes, chain, k, r, n, j)
    ensures Linked(n, if k == 0 then At(chain, 1) else head, if chain[k] == tail then At(chain, k - 1) else tail, r)
  {
    LinkAt(nodes, head, tail, chain, k);
    assert |r| > 0 ==> Spliced(nodes, chain, k, r, n, 0) && Spliced(nodes, chain, k, r, n, |r| - 1);
    forall j | 0 <= j < |r| ensures r[j] != NULL && r[j] in n && n[r[j]].next == At(r, j + 1) {
      assert Spliced(nodes, chain, k, r, n, j);
    }
    forall i, j | 0 <= i < j < |r| ensures r[i] != r[j] {
      assert Spliced(nodes, chain, k, r, n, i) && Spliced(nodes, chain, k, r, n, j);
    }
  }

  lemma SplicedMsgs(nodes: map<nat, Node>, chain: seq<nat>, k: nat, r: seq<nat>, n: map<nat, Node>)
    requires k < |chain| && |r| == |chain| - 1 && forall j :: 0 <= j < |chain| ==> chain[j] in nodes
    requires forall j :: 0 <= j < |r| ==> Spliced(nodes, chain, k, r, n, j)
    ensures (forall j :: 0 <= j < |r| ==> r[j] in n) && Msgs(n, r) == RemoveAt(Msgs(nodes, chain), k)
  {
    forall j | 0 <= j < |r| ensures r[j] in n && n[r[j]].msg == RemoveAt(Msgs(nodes, chain), k)[j] {
      assert Spliced(nodes, chain, k, r, n, j);
    }
  }

  /** The search stops at the k-th node or goes on behind it. */
  lemma FirstStep(nodes: map<nat, Node>, chain: seq<nat>, want: int, k: nat)
    requires k < |chain| && forall j :: 0 <= j < |chain| ==> chain[j] in nodes
    ensures var msgs := Msgs(nodes, chain);
      && msgs[k] == nodes[chain[k]].msg
      && FirstFrom(msgs, want, k) == if Accepts(want, msgs[k]) then Some(k) else FirstFrom(msgs, want, k + 1)
  {
  }

  // ---------------------------------------------------------------- sizes

  function AsUint(x: int): (u: nat) {
    x % UINT
  }

  function AsInt(x: int): (r: int) {
    if x % UINT < INT then x % UINT else x % UINT - UINT
  }

  /** argptr accepts size bytes at a pointer with room bytes of the process behind it; none for a bad one. */
  predicate ArgOk(size: int, room: nat) {
    0 <= size <= room && room > 0
  }

  /** msgsnd accepts sizes from -4 on. */
  lemma SendAcceptedIff(msgsz: int, room: nat)
    requires -INT <= msgsz < INT && room < INT
    ensures ArgOk(AsInt(msgsz + LONG), room) <==> room > 0 && -LONG <= msgsz <= room - LONG
  {
  }

  /** How many bytes are behind a signed size. */
  function Count(length: int): (n: nat) {
    if length < 0 then 0 else length
  }

  function Filled(page: Page, bytes: seq<int>): (r: Page)
    requires |bytes| <= ROOM
  {
    bytes + page[|bytes|..]
  }

  /** The bytes sent in a message that fits its node. */
  function SentBytes(m: Msg): (s: seq<int>)
    requires m.length <= ROOM
  {
    m.page[..Count(m.length)]
  }

  /** The size msgrcv settles on: the comparison is one of unsigned numbers. */
  function CopySize(length: int, msgsz: int): (n: int) {
    if AsUint(length) < AsUint(msgsz) then length else msgsz
  }

  /** What comes of msgrcv: n is returned; Beyond reads past the node's page. */
  datatype Outcome = Got(typ: int, n: int, bytes: seq<int>) | Beyond | Refused | Nothing

  /** What msgrcv makes of the message it has unlinked. */
  function Deliver(m: Msg, msgsz: int, room: nat): (r: Outcome) {
    var n := CopySize(m.length, msgsz);
    if !ArgOk(AsInt(LONG + n), room) then Refused
    else if n > ROOM then Beyond
    else Got(m.typ, n, m.page[..Count(n)])
  }

  /** Whatever size is asked for, a receiver gets bytes that were sent, and is told how many. */
  ghost predicate OnlySent(m: Msg)
    requires m.length <= ROOM
  {
    forall msgsz, room: nat :: -INT <= msgsz < INT && !Deliver(m, msgsz, room).Refused? ==>
      var r := Deliver(m, msgsz, room);
      r.Got? && r.bytes <= SentBytes(m) && r.n == |r.bytes|
  }

  /** Memory after bytes are stored at an address. */
  function Store(mem: seq<int>, at: nat, bytes: seq<int>): (r: seq<int>)
    requires at + |bytes| <= |mem|
    ensures |r| == |mem|
  {
    mem[..at] + bytes + mem[at + |bytes|..]
  }

  /** Byte a of memory is in another page than p, and as before once bytes are stored in the node in p. */
  ghost predicate ByteKept(p: nat, mem: seq<int>, bytes: seq<int>, a: nat) {
    var at := p * PGSIZE + HEADER;
    at + |bytes| <= |mem| && a < |mem| && a / PGSIZE != p ==> Store(mem, at, bytes)[a] == mem[a]
  }

  /** Storing n bytes in the node in page p leaves all other pages alone. */
  ghost predicate StaysInNode(p: nat, n: nat) {
    forall mem, bytes, a: nat :: |bytes| == n ==> ByteKept(p, mem, bytes, a)
  }

  lemma StaysIff(p: nat, n: nat)
    ensures StaysInNode(p, n) <==> n <= ROOM
  {
    if n > ROOM {
      RunsOver(p, n);
    } else {
      forall mem, bytes, a: nat | |bytes| == n ensures ByteKept(p, mem, bytes, a) {
        if a / PGSIZE != p {
          OtherPage(p, a, n);
        }
      }
    }
  }

  /** More bytes than the page has room for reach the next page. */
  lemma RunsOver(p: nat, n: nat)
    requires n > ROOM
    ensures !StaysInNode(p, n)
  {
    var at, a := p * PGSIZE + HEADER, (p + 1) * PGSIZE;
    var mem, bytes := seq(at + n, _ => 0), seq(n, _ => 1);
    assert a / PGSIZE == p + 1;
    assert Store(mem, at, bytes)[a] == bytes[a - at];
    assert !ByteKept(p, mem, bytes, a);
  }

  lemma OtherPage(p: nat, a: nat, n: nat)
    requires a / PGSIZE != p && n <= ROOM
    ensures !(p * PGSIZE + HEADER <= a < p * PGSIZE + HEADER + n)
  {
  }

  lemma OnlySentIff(m: Msg)
    requires -LONG <= m.length <= ROOM
    ensures OnlySent(m) <==> 0 <= m.length
  {
    if m.length < 0 {
      var r := Deliver(m, 1, LONG + 1);
      assert CopySize(m.length, 1) == 1 && r == Got(m.typ, 1, m.page[..1]);
      assert |r.bytes| == 1;
    } else {
      forall msgsz, room: nat | -INT <= msgsz < INT && !Deliver(m, msgsz, room).Refused?
        ensures var r := Deliver(m, msgsz, room); r.Got? && r.bytes <= SentBytes(m) && r.n == |r.bytes|
      {
        CopyAtMost(m.length, msgsz);
      }
    }
  }

  /** Of a message with a size of at least 0 no more is copied than there is, or than was asked for. */
  lemma CopyAtMost(length: nat, msgsz: int)
    requires length < INT && -INT <= msgsz < INT
    ensures 0 <= CopySize(length, msgsz) <= length && (0 <= msgsz ==> CopySize(length, msgsz) <= msgsz)
  {
  }

  /**
   Exactly when a send that msgsnd accepts is safe, that is, stays inside its node and leads only to
   receives of bytes that were sent: when its size is at least 0 and at most what the page has.
   */
  lemma SizeIsSafeIff(p: nat, m: Msg, msgsz: int)
    requires -LONG <= msgsz < INT && (msgsz <= ROOM ==> m.length == msgsz)
    ensures StaysInNode(p, Count(msgsz)) && (msgsz <= ROOM ==> OnlySent(m)) <==> 0 <= msgsz <= ROOM
  {
    hide StaysInNode, OnlySent;
    StaysIff(p, Count(msgsz));
    if msgsz <= ROOM {
      OnlySentIff(m);
    }
  }

  /** A message of size -1, of which nothing was sent: msgrcv for 100 bytes returns 100 bytes of the page. */
  lemma NegativeSizeIsCopied(m: Msg)
    requires m.length == -1
    ensures ArgOk(AsInt(m.length + LONG), LONG) && SentBytes(m) == []
    ensures Deliver(m, 100, LONG + 100) == Got(m.typ, 100, m.page[..100])
  {
  }

  /** The k-th message is the first of the type wanted, 0 being any, and rest is msgs without it. */
  ghost predicate Taken(msgs: seq<Msg>, want: int, k: int, rest: seq<Msg>) {
    && 0 <= k < |msgs| && (want == 0 || msgs[k].typ == want) && rest == msgs[..k] + msgs[k + 1..]
    && forall j :: 0 <= j < k ==> want != 0 && msgs[j].typ != want
  }

  ghost predicate NoneWanted(msgs: seq<Msg>, want: int) {
    forall k :: 0 <= k < |msgs| ==> want != 0 && msgs[k].typ != want
  }

  lemma TakenIs(msgs: seq<Msg>, want: int)
    ensures match FirstFrom(msgs, want, 0)
            case Some(k) => Taken(msgs, want, k, RemoveAt(msgs, k)) && !NoneWanted(msgs, want)
            case None => NoneWanted(msgs, want)
  {
  }

  /** Of a message of a safe size msgrcv copies what was asked for, or all of it if that is less or negative. */
  lemma DeliverIs(m: Msg, msgsz: int, room: nat)
    requires 0 <= m.length <= ROOM && -INT <= msgsz < INT
    ensures var k := if 0 <= msgsz < m.length then msgsz else m.length;
      Deliver(m, msgsz, room) == if room < LONG + k then Refused else Got(m.typ, k, m.page[..k])
  {
  }

  /** For a message of a safe size r is that: its bytes up to the size asked for, if the buffer takes them. */
  ghost predicate Delivered(m: Msg, msgsz: int, room: nat, r: Outcome) {
    0 <= m.length <= ROOM ==>
      var k := if 0 <= msgsz < m.length then msgsz else m.length;
      r == if room < LONG + k then Refused else Got(m.typ, k, m.page[..k])
  }

  /** What comes of msgsnd: Overrun stores past the node's page. */
  datatype SendResult = Sent | NotSent | Overrun

  class Queue {
    var head: nat
    var tail: nat
    var nodes: map<nat, Node>
    ghost var chain: seq<nat>

    ghost predicate Valid()
      reads this
    {
      Linked(nodes, head, tail, chain)
    }

    ghost function Contents(): (s: seq<Msg>)
      requires Valid()
      reads this
    {
      Msgs(nodes, chain)
    }

    constructor ()
      ensures Valid() && Contents() == []
    {
      head, tail := NULL, NULL;
      nodes := map[];
      chain := [];
    }

    /** The locked part of msgsnd, for a message in a new node. */
    method Send(a: nat, m: Msg)
      requires Valid() && a != NULL && a !in nodes
      modifies this
      ensures Valid() && Contents() == old(Contents()) + [m]
    {
      ghost var n0, h0, t0 := nodes, head, tail;
      nodes := nodes[a := Node(NULL, m)];
      if head == NULL {
        head := a;
        tail := a;
      } else {
        nodes := nodes[tail := nodes[tail].(next := a)];
        tail := a;
      }
      Appended(n0, h0, t0, chain, a, m, nodes);
      chain := chain + [a];
    }

    /** One scan of msgrcv: unlink the oldest accepted message, if there is one. */
    method Receive(want: int) returns (r: Option<Msg>)
      requires Valid()
      modifies this
      ensures Valid()
      ensures match FirstFrom(old(Contents()), want, 0)
              case Some(k) => r == Some(old(Contents())[k]) && Contents() == RemoveAt(old(Contents()), k)
              case None => r == None && Contents() == old(Contents())
      ensures r.None? <==> NoneWanted(old(Contents()), want)
      ensures r.None? ==> Contents() == old(Contents())
      ensures r.Some? ==> exists k :: Taken(old(Contents()), want, k, Contents()) && r.value == old(Contents())[k]
    {
      hide RemoveAt, Msgs, FirstFrom, Taken, NoneWanted;
      TakenIs(Contents(), want);
      var previous := NULL;
      var current := head;
      ghost var k := 0;
      ghost var msgs := Contents();
      while current != NULL
        invariant 0 <= k <= |chain| && Valid() && Contents() == msgs && chain == old(chain)
        invariant current == At(chain, k) && previous == At(chain, k - 1)
        invariant FirstFrom(msgs, want, 0) == FirstFrom(msgs, want, k)
        decreases |chain| - k
      {
        FirstStep(nodes, chain, want, k);
        if want == 0 || nodes[current].msg.typ == want {
          Unlinked(nodes, head, tail, chain, k);
          var next := nodes[current].next;
          r := Some(nodes[current].msg);
          if previous != NULL {
            nodes := nodes[previous := nodes[previous].(next := next)];
          } else {
            head := next;
          }
          if current == tail {
            tail := previous;
          }
          nodes := nodes - {current};
          chain := RemoveAt(chain, k);
          return;
        }
        previous := current;
        current := nodes[current].next;
        k := k + 1;
      }
      r := None;
    }

    /**
     msgsnd, given the bytes of the process from the user's pointer on and the page that kalloc
     returns. It refuses exactly a bad pointer or size, or without memory; a size larger than the
     page has room for leaves nothing certain.
     */
    method Msgsnd(a: Option<nat>, page: Page, typ: int, user: seq<int>, msgsz: int) returns (r: SendResult)
      requires Valid() && (a.Some? ==> a.value != NULL && a.value !in nodes) && -INT <= msgsz < INT && |user| < INT
      modifies this
      ensures r == NotSent <==> a.None? || user == [] || msgsz < -LONG || |user| < msgsz + LONG
      ensures r == NotSent ==> Valid() && Contents() == old(Contents())
      ensures r == Sent ==>
        && msgsz <= ROOM && Valid() && |Contents()| == |old(Contents())| + 1
        && var m := Contents()[|old(Contents())|];
        && Contents() == old(Contents()) + [m] && m.typ == typ && m.length == msgsz
        && SentBytes(m) == if msgsz < 0 then [] else user[LONG..LONG + msgsz]
      ensures r == Overrun ==> msgsz > ROOM
    {
      SendAcceptedIff(msgsz, |user|);
      if !ArgOk(AsInt(msgsz + LONG), |user|) || a.None? {
        return NotSent;
      }
      if msgsz > ROOM {
        return Overrun;
      }
      var data := if msgsz > 0 then user[LONG..LONG + msgsz] else [];
      Send(a.value, Msg(typ, msgsz, Filled(page, data)));
      r := Sent;
    }

    /** A call of msgrcv that finds a message, or nothing: a message is lost if the user's buffer is refused. */
    method Msgrcv(want: int, msgsz: int, room: nat) returns (r: Outcome)
      requires Valid() && -INT <= msgsz < INT
      modifies this
      ensures Valid()
      ensures match FirstFrom(old(Contents()), want, 0)
              case Some(k) =>
                && r == Deliver(old(Contents())[k], msgsz, room) && Contents() == RemoveAt(old(Contents()), k)
              case None => r == Nothing && Contents() == old(Contents())
      ensures r.Nothing? <==> NoneWanted(old(Contents()), want)
      ensures !r.Nothing? ==>
        exists k :: Taken(old(Contents()), want, k, Contents()) && Delivered(old(Contents())[k], msgsz, room, r)
    {
      hide Taken, FirstFrom, RemoveAt, NoneWanted, Deliver, Delivered, Msgs, Linked;
      var m := Receive(want);
      if m.None? {
        return Nothing;
      }
      r := CopyOut(m.value, msgsz, room);
    }
  }

  /** The end of msgrcv, for the message it has unlinked. */
  method CopyOut(m: Msg, msgsz: int, room: nat) returns (r: Outcome)
    requires -INT <= msgsz < INT
    ensures r == Deliver(m, msgsz, room) && Delivered(m, msgsz, room, r) && !r.Nothing?
  {
    if 0 <= m.length <= ROOM {
      DeliverIs(m, msgsz, room);
    }
    var copysz := m.length;
    if AsUint(m.length) >= AsUint(msgsz) {
      copysz := msgsz;
    }
    if !ArgOk(AsInt(LONG + copysz), room) {
      return Refused;
    }
    if copysz > ROOM {
      return Beyond;
    }
    r := Got(m.typ, copysz, if copysz > 0 then m.page[..copysz] else []);
  }

  /** With a size at least its own a message arrives whole exactly if the buffer has room for it. */
  lemma DeliverWhole(m: Msg, msgsz: int, room: nat)
    requires 0 <= m.length <= ROOM && m.length <= msgsz < INT
    ensures Deliver(m, msgsz, room) == Got(m.typ, m.length, SentBytes(m)) <==> LONG + m.length <= room
  {
    CopyAtMost(m.length, msgsz);
  }

  // ---------------------------------------------------------------- runs

  /** A process inside msgrcv. */
  datatype Receiver = Receiver(want: int, nowait: bool, asleep: bool)

  /**
   All messages ever sent, in order; which of them are queued, delivered and lost; the bytes that
   came of each delivery; and who waits.
   */
  datatype State = State(sent: seq<Msg>, queue: seq<nat>, delivered: seq<nat>, got: seq<seq<int>>, lost: seq<nat>,
                         waiting: map<nat, Receiver>, killed: set<nat>)

  datatype Event =
    | SendMsg(m: Msg)
    | StartReceive(p: nat, want: int, nowait: bool)
    | Turn(p: nat, msgsz: int, room: nat)  // receiver p, awake, scans the queue
    | Kill(p: nat)

  predicate Enabled(s: State, e: Event) {
    match e
    case SendMsg(m) => 0 <= m.length <= ROOM  // the sizes that are safe
    case StartReceive(p, want, nowait) => p !in s.waiting
    case Turn(p, msgsz, room) => p in s.waiting && !s.waiting[p].asleep && -INT <= msgsz < INT
    case Kill(p) => true
  }

  ghost predicate QueueOk(s: State) {
    forall k :: 0 <= k < |s.queue| ==> s.queue[k] < |s.sent|
  }

  function Queued(s: State): (r: seq<Msg>)
    requires forall k :: 0 <= k < |s.queue| ==> s.queue[k] < |s.sent|
    ensures |r| == |s.queue|
  {
    seq(|s.queue|, k requires 0 <= k < |s.queue| => s.sent[s.queue[k]])
  }

  function WakeAll(w: map<nat, Receiver>): (r: map<nat, Receiver>) {
    map p | p in w :: w[p].(asleep := false)
  }

  function Do(s: State, e: Event): (t: State)
    requires Enabled(s, e) && QueueOk(s)
  {
    match e
    case SendMsg(m) => s.(sent := s.sent + [m], queue := s.queue + [|s.sent|], waiting := WakeAll(s.waiting))
    case StartReceive(p, want, nowait) => s.(waiting := s.waiting[p := Receiver(want, nowait, false)])
    case Kill(p) =>
      var w := if p in s.waiting then s.waiting[p := s.waiting[p].(asleep := false)] else s.waiting;
      s.(killed := s.killed + {p}, waiting := w)
    case Turn(p, msgsz, room) =>
      (match FirstFrom(Queued(s), s.waiting[p].want, 0)
       case Some(k) =>
         var t := s.(queue := RemoveAt(s.queue, k), waiting := s.waiting - {p});
         var r := Deliver(Queued(s)[k], msgsz, room);
         if r.Got? then t.(delivered := s.delivered + [s.queue[k]], got := s.got + [r.bytes])
         else t.(lost := s.lost + [s.queue[k]])
       case None =>
         if s.waiting[p].nowait || p in s.killed then s.(waiting := s.waiting - {p})
         else s.(waiting := s.waiting[p := s.waiting[p].(asleep := true)]))
  }

  /** What has left the queue. */
  function Gone(s: State): (g: seq<nat>) {
    s.delivered + s.lost
  }

  /** Every sent message is queued, in send order, or delivered or lost, once. */
  ghost predicate Once(s: State) {
    && QueueOk(s)
    && (forall j, k :: 0 <= j < k < |s.queue| ==> s.queue[j] < s.queue[k])
    && (forall j, k :: 0 <= j < k < |Gone(s)| ==> Gone(s)[j] != Gone(s)[k])
    && (forall i: nat :: i in Gone(s) ==> i < |s.sent|)
    && (forall i: nat :: i < |s.sent| ==> (i in s.queue <==> i !in Gone(s)))
  }

  /** Nobody sleeps while a message it accepts is queued. */
  ghost predicate NoneForgotten(s: State)
    requires QueueOk(s)
  {
    forall p, k :: p in s.waiting && s.waiting[p].asleep && 0 <= k < |s.queue| ==>
      !Accepts(s.waiting[p].want, s.sent[s.queue[k]])
  }

  lemma {:induction false} SendKeeps(s: State, m: Msg)
    requires Once(s) && Enabled(s, SendMsg(m))
    ensures Once(Do(s, SendMsg(m))) && NoneForgotten(Do(s, SendMsg(m)))
  {
    var t := Do(s, SendMsg(m));
    assert Gone(t) == Gone(s);
    forall i: nat | i < |t.sent| ensures i in t.queue <==> i !in Gone(t) {
      if i == |s.sent| {
        assert t.queue[|s.queue|] == i;
      }
    }
  }

  lemma TurnKeeps(s: State, p: nat, msgsz: int, room: nat)
    requires Once(s) && Enabled(s, Turn(p, msgsz, room))
    ensures Once(Do(s, Turn(p, msgsz, room)))
  {
    hide Once;
    QueueOfOnce(s);
    var f := FirstFrom(Queued(s), s.waiting[p].want, 0);
    if f.Some? {
      LeaveKeeps(s, Do(s, Turn(p, msgsz, room)), f.value);
    } else {
      SameOnce(s, Do(s, Turn(p, msgsz, room)));
    }
  }

  lemma QueueOfOnce(s: State)
    requires Once(s)
    ensures QueueOk(s)
  {
  }

  lemma SameOnce(s: State, t: State)
    requires Once(s) && t.sent == s.sent && t.queue == s.queue && t.delivered == s.delivered && t.lost == s.lost
    ensures Once(t)
  {
    assert Gone(t) == Gone(s);
  }

  /** Moving the k-th queued message to the delivered or the lost ones. */
  lemma LeaveKeeps(s: State, t: State, k: nat)
    requires Once(s) && k < |s.queue| && t.sent == s.sent && t.queue == RemoveAt(s.queue, k)
    requires
      || (t.delivered == s.delivered + [s.queue[k]] && t.lost == s.lost)
      || (t.delivered == s.delivered && t.lost == s.lost + [s.queue[k]])
    ensures Once(t)
  {
    assert s.queue[k] in s.queue;
    forall i: nat ensures i in t.queue <==> i in s.queue && i != s.queue[k] {
      RemoveAtIn(s.queue, k, i);
    }
    assert forall i: nat :: i in Gone(t) <==> i in Gone(s) || i == s.queue[k];
    forall j | 0 <= j < |t.queue| ensures t.queue[j] == s.queue[if j < k then j else j + 1] {
    }
    GoneApart(s, t, s.queue[k]);
  }

  lemma GoneApart(s: State, t: State, x: nat)
    requires (forall j, k :: 0 <= j < k < |Gone(s)| ==> Gone(s)[j] != Gone(s)[k]) && x !in Gone(s)
    requires
      || (t.delivered == s.delivered + [x] && t.lost == s.lost)
      || (t.delivered == s.delivered && t.lost == s.lost + [x])
    ensures forall j, k :: 0 <= j < k < |Gone(t)| ==> Gone(t)[j] != Gone(t)[k]
  {
    var g, h := Gone(s), Gone(t);
    var at := if t.lost == s.lost then |s.delivered| else |g|;
    assert h == g[..at] + [x] + g[at..];
    forall j, k | 0 <= j < k < |h| ensures h[j] != h[k] {
      assert h[j] == if j < at then g[j] else if j == at then x else g[j - 1];
      assert h[k] == if k < at then g[k] else if k == at then x else g[k - 1];
    }
  }

  lemma RemoveAtIn(q: seq<nat>, k: nat, i: nat)
    requires k < |q| && forall a, b :: 0 <= a < b < |q| ==> q[a] < q[b]
    ensures i in RemoveAt(q, k) <==> i in q && i != q[k]
  {
    var r := RemoveAt(q, k);
    if i in q && i != q[k] {
      var j :| 0 <= j < |q| && q[j] == i;
      assert j < k ==> r[j] == i;
      assert j > k ==> r[j - 1] == i;
    }
  }

  lemma TurnRemembers(s: State, p: nat, msgsz: int, room: nat)
    requires Once(s) && NoneForgotten(s) && Enabled(s, Turn(p, msgsz, room)) && QueueOk(Do(s, Turn(p, msgsz, room)))
    ensures NoneForgotten(Do(s, Turn(p, msgsz, room)))
  {
    var t := Do(s, Turn(p, msgsz, room));
    forall q, k | q in t.waiting && t.waiting[q].asleep && 0 <= k < |t.queue|
      ensures !Accepts(t.waiting[q].want, t.sent[t.queue[k]])
    {
      var f := FirstFrom(Queued(s), s.waiting[p].want, 0);
      if f.Some? {
        var j := if k < f.value then k else k + 1;
        assert t.queue[k] == s.queue[j];
      } else if q == p {
        assert !Accepts(s.waiting[p].want, Queued(s)[k]);
      }
    }
  }

  ghost predicate Inv(s: State) {
    Once(s) && NoneForgotten(s) && Truthful(s)
  }

  lemma Keeps(s: State, e: Event)
    requires Inv(s) && Enabled(s, e)
    ensures Inv(Do(s, e))
  {
    hide Truthful;
    TruthKept(s, e);
    match e
    case SendMsg(m) => SendKeeps(s, m);
    case Turn(p, msgsz, room) => TurnKeeps(s, p, msgsz, room); TurnRemembers(s, p, msgsz, room);
    case _ => SameOnce(s, Do(s, e));
  }

  /**
   How a receiver's turn ends: it goes to sleep exactly if nothing it accepts is queued, it is ready
   to wait and it has not been killed; otherwise it is done.
   */
  lemma TurnEnds(s: State, p: nat, msgsz: int, room: nat)
    requires Once(s) && Enabled(s, Turn(p, msgsz, room))
    ensures var t, r := Do(s, Turn(p, msgsz, room)), s.waiting[p];
      && t.sent == s.sent && t.killed == s.killed && t.waiting - {p} == s.waiting - {p}
      && (p in t.waiting <==>
            && (forall k :: 0 <= k < |s.queue| ==> r.want != 0 && s.sent[s.queue[k]].typ != r.want)
            && !r.nowait && p !in s.killed)
      && (p in t.waiting ==> t == s.(waiting := s.waiting[p := r.(asleep := true)]))
  {
    var f := FirstFrom(Queued(s), s.waiting[p].want, 0);
    if f.Some? {
      assert Queued(s)[f.value] == s.sent[s.queue[f.value]];
    } else {
      forall k | 0 <= k < |s.queue| ensures !Accepts(s.waiting[p].want, s.sent[s.queue[k]]) {
        assert Queued(s)[k] == s.sent[s.queue[k]];
      }
    }
  }

  /** What a receiver takes is the oldest message it accepts that nobody has taken. */
  lemma TakesOldest(s: State, p: nat, msgsz: int, room: nat, i: nat)
    requires Once(s) && Enabled(s, Turn(p, msgsz, room))
    requires i < |s.sent| && i !in Gone(s) && Accepts(s.waiting[p].want, s.sent[i])
    ensures var t := Do(s, Turn(p, msgsz, room));
      exists d: nat :: d <= i && d in s.queue && Accepts(s.waiting[p].want, s.sent[d])
                       && (if Deliver(s.sent[d], msgsz, room).Got?
                           then t.delivered == s.delivered + [d] && t.lost == s.lost
                           else t.delivered == s.delivered && t.lost == s.lost + [d])
  {
    var f := FirstFrom(Queued(s), s.waiting[p].want, 0);
    assert i in s.queue;
    var k :| 0 <= k < |s.queue| && s.queue[k] == i;
    assert Queued(s)[k] == s.sent[i];
    assert f.value <= k;
    assert s.queue[f.value] in s.queue;
  }

  /** Every delivery was of bytes that were sent in that message. */
  ghost predicate Truthful(s: State) {
    && (forall i :: 0 <= i < |s.sent| ==> 0 <= s.sent[i].length <= ROOM)
    && |s.got| == |s.delivered|
    && (forall k :: 0 <= k < |s.got| ==> s.delivered[k] < |s.sent| && s.got[k] <= SentBytes(s.sent[s.delivered[k]]))
  }

  lemma TruthKept(s: State, e: Event)
    requires Once(s) && Truthful(s) && Enabled(s, e)
    ensures Truthful(Do(s, e))
  {
    hide Deliver, OnlySent, SentBytes;
    if e.Turn? {
      var f := FirstFrom(Queued(s), s.waiting[e.p].want, 0);
      if f.Some? {
        var m := s.sent[s.queue[f.value]];
        assert Queued(s)[f.value] == m;
        OnlySentIff(m);
        GotSent(m, e.msgsz, e.room);
      }
    }
  }

  lemma GotSent(m: Msg, msgsz: int, room: nat)
    requires m.length <= ROOM && OnlySent(m) && -INT <= msgsz < INT
    ensures Deliver(m, msgsz, room).Got? ==> Deliver(m, msgsz, room).bytes <= SentBytes(m)
  {
  }

  ghost predicate Runs(s: State, es: seq<Event>)
    decreases |es|
  {
    es == [] || (QueueOk(s) && Enabled(s, es[0]) && Runs(Do(s, es[0]), es[1..]))
  }

  ghost function End(s: State, es: seq<Event>): (t: State)
    requires Runs(s, es)
    decreases |es|
  {
    if es == [] then s else End(Do(s, es[0]), es[1..])
  }

  function New(): (s: State) {
    State([], [], [], [], [], map[], {})
  }

  /**
   In every run each message is queued, in send order, delivered or lost, once, nobody is forgotten,
   and whatever is delivered was sent.
   */
  lemma {:induction false} RunsKeep(s: State, es: seq<Event>)
    requires Inv(s) && Runs(s, es)
    ensures Inv(End(s, es))
    decreases |es|
  {
    hide Inv, Enabled, Do;
    if es != [] {
      Keeps(s, es[0]);
      RunsKeep(Do(s, es[0]), es[1..]);
    }
  }

  lemma EveryRun(es: seq<Event>)
    requires Runs(New(), es)
    ensures Inv(End(New(), es))
  {
    hide Runs, End;
    RunsKeep(New(), es);
  }
}
