/** The tail utility: the last lines of its input, kept in a circular buffer. */
module Tail {
  import opened Wrappers

  const BUF_SIZE := 4096
  const MAX_LINE_LEN := 4096

  /** The lines of a text, each with its newline; the last may have none. */
  function Lines(s: string, line: string): (r: seq<string>)
    decreases |s|
  {
    if s == [] then if line == [] then [] else [line]
    else if s[0] == '\n' then [line + [s[0]]] + Lines(s[1..], [])
    else Lines(s[1..], line + [s[0]])
  }

  /** The pieces the program cuts its input into: lines, or as much as its line buffer takes. */
  function Pieces(s: string, line: string): (r: seq<string>)
    decreases |s|
  {
    if s == [] then if line == [] then [] else [line]
    else
      var t := line + [s[0]];
      if s[0] == '\n' || |t| == MAX_LINE_LEN - 1 then [t] + Pieces(s[1..], [])
      else Pieces(s[1..], t)
  }

  function Flat(ws: seq<string>): (s: string) {
    if ws == [] then [] else ws[0] + Flat(ws[1..])
  }

  /** Every line is closed by its only newline, but the last may lack one. */
  ghost predicate AreLines(ws: seq<string>) {
    forall k :: 0 <= k < |ws| ==>
      && ws[k] != [] && '\n' !in ws[k][..|ws[k]| - 1]
      && (k < |ws| - 1 ==> ws[k][|ws[k]| - 1] == '\n')
  }

  /** The lines are the whole text. */
  lemma {:induction false} LinesAre(s: string, line: string)
    requires '\n' !in line
    ensures Flat(Lines(s, line)) == line + s && AreLines(Lines(s, line))
    decreases |s|
  {
    if s == [] {
      assert line + s == line && (line != [] ==> Flat([line]) == line + Flat([]));
    } else if s[0] == '\n' {
      LinesAre(s[1..], []);
      var w := line + [s[0]];
      assert w[..|w| - 1] == line;
      assert [] + s[1..] == s[1..] && w + s[1..] == line + s;
    } else {
      LinesAre(s[1..], line + [s[0]]);
      assert line + [s[0]] + s[1..] == line + s;
    }
  }

  /** What strdup copies of a piece: up to a NUL. */
  function CStr(w: string): (r: string) {
    if w == [] || w[0] == '\0' then [] else [w[0]] + CStr(w[1..])
  }

  function CStrs(ws: seq<string>): (r: seq<string>)
    ensures |r| == |ws|
  {
    seq(|ws|, k requires 0 <= k < |ws| => CStr(ws[k]))
  }

  /** The last n of a sequence, or all of it. */
  function Last<T>(s: seq<T>, n: nat): (r: seq<T>) {
    if |s| <= n then s else s[|s| - n..]
  }

  // ---------------------------------------------------------------- pieces and lines

  /** It is a beginning of the piece, without NUL, and stops at a NUL or the end. */
  lemma {:induction false} CStrIs(w: string)
    ensures CStr(w) <= w && '\0' !in CStr(w) && (|CStr(w)| < |w| ==> w[|CStr(w)|] == '\0')
  {
    if w != [] && w[0] != '\0' {
      CStrIs(w[1..]);
    }
  }

  lemma {:induction false} CStrWhole(w: string)
    requires forall k :: 0 <= k < |w| ==> w[k] != '\0'
    ensures CStr(w) == w
  {
    if w != [] {
      CStrWhole(w[1..]);
    }
  }

  /** A line cut into what the line buffer takes. */
  function Cut(w: string): (r: seq<string>)
    decreases |w|
  {
    if |w| < MAX_LINE_LEN then [w] else [w[..MAX_LINE_LEN - 1]] + Cut(w[MAX_LINE_LEN - 1..])
  }

  function CutAll(ws: seq<string>): (r: seq<string>) {
    if ws == [] then [] else Cut(ws[0]) + CutAll(ws[1..])
  }

  /** The pieces are the lines, each cut on its own. */
  lemma {:induction false} PiecesAreCutLines(s: string, line: string)
    requires |line| < MAX_LINE_LEN - 1
    ensures Pieces(s, line) == CutAll(Lines(s, line))
    decreases |s|
  {
    if s != [] {
      var t := line + [s[0]];
      if s[0] == '\n' {
        PiecesAreCutLines(s[1..], []);
      } else if |t| == MAX_LINE_LEN - 1 {
        PiecesAreCutLines(s[1..], []);
        FullBuffer(s[1..], t);
      } else {
        PiecesAreCutLines(s[1..], t);
      }
    }
  }

  /** A line goes on after the buffer is full as if it began there. */
  lemma FullBuffer(s: string, line: string)
    requires |line| == MAX_LINE_LEN - 1
    ensures CutAll(Lines(s, line)) == [line] + CutAll(Lines(s, []))
  {
    if s != [] {
      LinesPrefixed(s, line, []);
      var ws := Lines(s, []);
      assert line + [] == line;
      assert Lines(s, line)[0] == line + ws[0] && Lines(s, line)[1..] == ws[1..];
      assert (line + ws[0])[..MAX_LINE_LEN - 1] == line && (line + ws[0])[MAX_LINE_LEN - 1..] == ws[0];
      assert Cut(line + ws[0]) == [line] + Cut(ws[0]);
    }
  }

  lemma {:induction false} LinesPrefixed(s: string, front: string, line: string)
    requires s != []
    ensures var ws := Lines(s, line);
      |ws| > 0 && |ws[0]| > 0 && Lines(s, front + line) == [front + ws[0]] + ws[1..]
    decreases |s|
  {
    var t := line + [s[0]];
    assert front + line + [s[0]] == front + t;
    if s[0] != '\n' && s[1..] != [] {
      LinesPrefixed(s[1..], front, t);
    }
  }

  predicate NoEmpty(ws: seq<string>) {
    forall k :: 0 <= k < |ws| ==> ws[k] != []
  }

  /** No line longer than the line buffer takes. */
  predicate AllFit(ws: seq<string>) {
    forall k :: 0 <= k < |ws| ==> |ws[k]| < MAX_LINE_LEN
  }

  lemma {:induction false} LinesHold(s: string, line: string)
    ensures NoEmpty(Lines(s, line))
    decreases |s|
  {
    if s != [] {
      LinesHold(s[1..], if s[0] == '\n' then [] else line + [s[0]]);
    }
  }

  lemma FlatFirst(ws: seq<string>)
    ensures Flat(ws) == if ws == [] then [] else ws[0] + Flat(ws[1..])
  {
  }

  lemma Regroup<T>(x: seq<T>, y: seq<T>, z: seq<T>)
    ensures x + y + z == x + (y + z)
  {
  }

  lemma {:induction false} FlatSum(a: seq<string>, b: seq<string>)
    ensures Flat(a + b) == Flat(a) + Flat(b)
  {
    hide Flat;
    FlatFirst(a);
    if a == [] {
      assert a + b == b;
    } else {
      FlatSum(a[1..], b);
      FlatFirst(a + b);
      assert (a + b)[0] == a[0] && (a + b)[1..] == a[1..] + b;
      Regroup(a[0], Flat(a[1..]), Flat(b));
    }
  }

  lemma CutAllFirst(ws: seq<string>)
    ensures CutAll(ws) == if ws == [] then [] else Cut(ws[0]) + CutAll(ws[1..])
  {
  }

  lemma {:induction false} CutAllSum(a: seq<string>, b: seq<string>)
    ensures CutAll(a + b) == CutAll(a) + CutAll(b)
  {
    hide CutAll, Cut;
    CutAllFirst(a);
    if a == [] {
      assert a + b == b;
    } else {
      CutAllSum(a[1..], b);
      CutAllFirst(a + b);
      assert (a + b)[0] == a[0] && (a + b)[1..] == a[1..] + b;
      Regroup(Cut(a[0]), CutAll(a[1..]), CutAll(b));
    }
  }

  /** Cutting a line loses nothing, and changes it only if it is too long. */
  lemma {:induction false} CutIs(w: string)
    requires w != []
    ensures Flat(Cut(w)) == w && NoEmpty(Cut(w))
    ensures |Cut(w)| >= 1 && (|Cut(w)| == 1 <==> |w| < MAX_LINE_LEN)
    ensures forall k :: 0 <= k < |Cut(w)| ==>
      |Cut(w)[k]| < MAX_LINE_LEN && (k < |Cut(w)| - 1 ==> |Cut(w)[k]| == MAX_LINE_LEN - 1)
    decreases |w|
  {
    if |w| < MAX_LINE_LEN {
      assert Flat([w]) == w + Flat([]);
    } else {
      CutIs(w[MAX_LINE_LEN - 1..]);
      FlatSum([w[..MAX_LINE_LEN - 1]], Cut(w[MAX_LINE_LEN - 1..]));
      assert Flat([w[..MAX_LINE_LEN - 1]]) == w[..MAX_LINE_LEN - 1] + Flat([]);
    }
  }

  lemma {:induction false} CutAllIs(ws: seq<string>)
    requires NoEmpty(ws)
    ensures Flat(CutAll(ws)) == Flat(ws) && NoEmpty(CutAll(ws)) && |CutAll(ws)| >= |ws|
    ensures |CutAll(ws)| == |ws| <==> AllFit(ws)
    ensures |CutAll(ws)| == |ws| ==> CutAll(ws) == ws
  {
    if ws != [] {
      CutIs(ws[0]);
      CutAllIs(ws[1..]);
      FlatSum(Cut(ws[0]), CutAll(ws[1..]));
      FitSplit(ws);
    }
  }

  lemma FitSplit(ws: seq<string>)
    requires ws != []
    ensures AllFit(ws) <==> |ws[0]| < MAX_LINE_LEN && AllFit(ws[1..])
  {
    assert ws == [ws[0]] + ws[1..];
  }

  /** Fewer non-empty pieces at the end are less text. */
  lemma ShorterEnd(ws: seq<string>, n: nat)
    requires n < |ws| && NoEmpty(ws)
    ensures |Flat(Last(ws, n))| < |Flat(ws)|
  {
    var k := |ws| - n;
    assert ws == ws[..k] + ws[k..];
    FlatSum(ws[..k], ws[k..]);
  }

  /** The last pieces are the last lines exactly if none is dropped, or the last lines all fit. */
  lemma LastOfCut(ws: seq<string>, keep: nat)
    requires NoEmpty(ws)
    ensures Flat(Last(CutAll(ws), keep)) == Flat(Last(ws, keep)) <==>
            |CutAll(ws)| <= keep || AllFit(Last(ws, keep))
  {
    var ps, end := CutAll(ws), Last(ws, keep);
    CutAllIs(ws);
    if |ps| > keep {
      CutAllIs(end);
      LastCut(ws, keep);
      if |CutAll(end)| > |end| {
        ShorterEnd(CutAll(end), keep);
      }
    }
  }

  /** If pieces are dropped, those printed are the last of the last lines' pieces. */
  lemma LastCut(ws: seq<string>, keep: nat)
    requires NoEmpty(ws) && |CutAll(ws)| > keep
    ensures var end := CutAll(Last(ws, keep));
      |end| >= keep && Last(CutAll(ws), keep) == Last(end, keep)
    ensures |CutAll(Last(ws, keep))| > |Last(ws, keep)| ==> |CutAll(Last(ws, keep))| > keep
    ensures |CutAll(Last(ws, keep))| == |Last(ws, keep)| ==> |Last(ws, keep)| == keep
  {
    if |ws| > keep {
      var n := |ws| - keep;
      assert ws == ws[..n] + ws[n..];
      CutAllSum(ws[..n], ws[n..]);
      CutAllIs(ws[n..]);
    }
  }

  lemma {:induction false} PiecesNulFree(s: string, line: string)
    requires (forall k :: 0 <= k < |s| ==> s[k] != '\0') && (forall k :: 0 <= k < |line| ==> line[k] != '\0')
    ensures CStrs(Pieces(s, line)) == Pieces(s, line)
    decreases |s|
  {
    if s == [] {
      CStrWhole(line);
    } else {
      var t := line + [s[0]];
      if s[0] == '\n' || |t| == MAX_LINE_LEN - 1 {
        PiecesNulFree(s[1..], []);
        CStrWhole(t);
        var p := Pieces(s[1..], []);
        assert CStrs([t] + p) == [CStr(t)] + CStrs(p);
      } else {
        PiecesNulFree(s[1..], t);
      }
    }
  }

  // ---------------------------------------------------------------- the circular buffer

  /** The buffer holds, by number modulo its size, the last of the pieces. */
  ghost predicate Holds(circ: seq<Option<string>>, pieces: seq<string>) {
    && |circ| > 0
    && forall k :: 0 <= k < |pieces| && |pieces| <= k + |circ| ==> circ[k % |circ|] == Some(CStr(pieces[k]))
  }

  lemma Stored(circ: seq<Option<string>>, pieces: seq<string>, w: string)
    requires Holds(circ, pieces)
    ensures Holds(circ[|pieces| % |circ| := Some(CStr(w))], pieces + [w])
  {
    var n, c := |pieces|, |circ|;
    var r := circ[n % c := Some(CStr(w))];
    forall k | 0 <= k < n + 1 && n + 1 <= k + c ensures r[k % c] == Some(CStr((pieces + [w])[k])) {
      if k < n {
        Apart(k, n, c);
      }
    }
  }

  /** A remainder is what is left below the divisor. */
  lemma ModIs(x: nat, c: nat, q: nat, r: nat)
    requires c > 0 && x == c * q + r && r < c
    ensures x % c == r
  {
    var p := x / c;
    assert x == c * p + x % c;
    MulLess(c, p, q);
    MulLess(c, q, p);
  }

  lemma {:induction false} MulLess(c: nat, p: nat, q: nat)
    ensures p < q ==> c * p + c <= c * q
    decreases q
  {
    if p < q {
      Distribute(c, q - 1);
      MulLess(c, p, q - 1);
    }
  }

  lemma Distribute(c: nat, q: nat)
    ensures c * (q + 1) == c * q + c
  {
  }

  lemma Apart(k: nat, n: nat, c: nat)
    requires k < n < k + c
    ensures k % c != n % c
  {
    var q, r, d := k / c, k % c, n - k;
    assert k == c * q + r;
    if r + d < c {
      ModIs(n, c, q, r + d);
    } else {
      assert n == c * (q + 1) + (r + d - c);
      ModIs(n, c, q + 1, r + d - c);
    }
  }

  /** Where the i-th of the last pieces is kept. */
  lemma Place(n: nat, c: nat, i: nat)
    requires c > 0 && i < c < n
    ensures (n % c + i) % c == (n - c + i) % c
  {
    var q, r := n / c, n % c;
    assert n == c * q + r;
    MulLess(c, q, 1);
    assert q >= 1;
    assert n - c + i == c * (q - 1) + (r + i);
    if r + i < c {
      ModIs(r + i, c, 0, r + i);
      ModIs(n - c + i, c, q - 1, r + i);
    } else {
      ModIs(r + i, c, 1, r + i - c);
      assert n - c + i == c * q + (r + i - c);
      ModIs(n - c + i, c, q, r + i - c);
    }
  }

  lemma {:induction false} FlatSnoc(ws: seq<string>, w: string)
    ensures Flat(ws + [w]) == Flat(ws) + w
  {
    if ws == [] {
      assert Flat([w]) == w + Flat([]);
    } else {
      FlatSnoc(ws[1..], w);
      assert (ws + [w])[1..] == ws[1..] + [w];
    }
  }

  /** dump_tail on an input that can be read: the last pieces, each up to a NUL. */
  method DumpTail(input: string, keep: nat) returns (out: string)
    requires keep > 0
    ensures out == Flat(CStrs(Last(Pieces(input, []), keep)))
  {
    var circ: seq<Option<string>> := seq(keep, _ => None);
    var temp: string := [];
    var count := 0;
    ghost var pieces: seq<string> := [];
    var at := 0;
    while at < |input|
      invariant 0 <= at <= |input| && |circ| == keep && count == |pieces| && |temp| < MAX_LINE_LEN - 1
      invariant Holds(circ, pieces) && Pieces(input, []) == pieces + Pieces(input[at..], temp)
    {
      var n := if |input| - at < BUF_SIZE then |input| - at else BUF_SIZE;
      var buf := input[at..at + n];
      var i := 0;
      while i < n
        invariant 0 <= i <= n && |circ| == keep && count == |pieces| && |temp| < MAX_LINE_LEN - 1
        invariant Holds(circ, pieces) && Pieces(input, []) == pieces + Pieces(input[at + i..], temp)
      {
        assert input[at + i..][0] == buf[i] && input[at + i..][1..] == input[at + i + 1..];
        temp := temp + [buf[i]];
        if buf[i] == '\n' || |temp| == MAX_LINE_LEN - 1 {
          Stored(circ, pieces, temp);
          circ := circ[count % keep := Some(CStr(temp))];
          pieces := pieces + [temp];
          count := count + 1;
          temp := [];
        }
        i := i + 1;
      }
      at := at + n;
    }
    if |temp| > 0 {
      Stored(circ, pieces, temp);
      circ := circ[count % keep := Some(CStr(temp))];
      pieces := pieces + [temp];
      count := count + 1;
    }
    assert pieces == Pieces(input, []);
    out := PrintLast(circ, count, keep, pieces);
  }

  /** The printing loop. */
  method PrintLast(circ: seq<Option<string>>, count: nat, keep: nat, ghost pieces: seq<string>) returns (out: string)
    requires keep == |circ| && count == |pieces| && Holds(circ, pieces)
    ensures out == Flat(CStrs(Last(pieces, keep)))
  {
    var start := if count > keep then count % keep else 0;
    var limit := if count > keep then keep else count;
    ghost var last := Last(pieces, keep);
    out := [];
    var i := 0;
    while i < limit
      invariant 0 <= i <= limit == |last| && out == Flat(CStrs(last)[..i])
    {
      KeptAt(circ, pieces, start, i);
      FlatSnoc(CStrs(last)[..i], CStr(last[i]));
      assert CStrs(last)[..i] + [CStr(last[i])] == CStrs(last)[..i + 1];
      if circ[(start + i) % keep].Some? {
        out := out + circ[(start + i) % keep].value;
      }
      i := i + 1;
    }
    assert CStrs(last)[..limit] == CStrs(last);
  }

  lemma KeptAt(circ: seq<Option<string>>, pieces: seq<string>, start: nat, i: nat)
    requires Holds(circ, pieces) && i < |Last(pieces, |circ|)|
    requires start == if |pieces| > |circ| then |pieces| % |circ| else 0
    ensures circ[(start + i) % |circ|] == Some(CStr(Last(pieces, |circ|)[i]))
  {
    var n, c := |pieces|, |circ|;
    if n > c {
      Place(n, c, i);
      assert Last(pieces, c)[i] == pieces[n - c + i];
    } else {
      assert Last(pieces, c)[i] == pieces[i];
    }
  }

  /**
   For NUL-free input, the output is the last lines exactly if every piece is printed or no line
   among the last is longer than the line buffer takes.
   */
  lemma TailIsLastLines(input: string, keep: nat)
    requires forall k :: 0 <= k < |input| ==> input[k] != '\0'
    ensures Flat(CStrs(Last(Pieces(input, []), keep))) == Flat(Last(Lines(input, []), keep)) <==>
            |Pieces(input, [])| <= keep || AllFit(Last(Lines(input, []), keep))
  {
    PiecesNulFree(input, []);
    var p := Pieces(input, []);
    assert CStrs(Last(p, keep)) == Last(p, keep) by {
      forall k | 0 <= k < |Last(p, keep)| ensures CStr(Last(p, keep)[k]) == Last(p, keep)[k] {
        var j := if |p| <= keep then k else |p| - keep + k;
        assert CStrs(p)[j] == p[j];
      }
    }
    PiecesAreCutLines(input, []);
    LinesHold(input, []);
    LastOfCut(Lines(input, []), keep);
  }

  /** A line one character too long is printed as two. */
  lemma OverlongLineIsSplit(line: string)
    requires |line| == MAX_LINE_LEN && forall k :: 0 <= k < |line| ==> line[k] != '\n' && line[k] != '\0'
    ensures Last(Lines(line, []), 1) == [line] && Last(Pieces(line, []), 1) == [line[MAX_LINE_LEN - 1..]]
  {
    LinesAll(line, []);
    PiecesAll(line, []);
    assert [] + line == line;
  }

  lemma {:induction false} LinesAll(s: string, line: string)
    requires |line + s| > 0 && forall k :: 0 <= k < |s| ==> s[k] != '\n'
    ensures Lines(s, line) == [line + s]
    decreases |s|
  {
    if s == [] {
      assert line + s == line;
    } else {
      LinesAll(s[1..], line + [s[0]]);
      assert line + [s[0]] + s[1..] == line + s;
    }
  }

  lemma {:induction false} PiecesAll(s: string, line: string)
    requires |line| < MAX_LINE_LEN - 1 && |line| + |s| == MAX_LINE_LEN && forall k :: 0 <= k < |s| ==> s[k] != '\n'
    ensures |Pieces(s, line)| == 2 && Pieces(s, line)[1] == s[|s| - 1..]
    decreases |s|
  {
    var t := line + [s[0]];
    if |t| == MAX_LINE_LEN - 1 {
      var u := [s[1]];
      assert s[1..] == u && s[|s| - 1..] == u;
      assert u[1..] == [] && [] + [u[0]] == u;
      assert Pieces(u, []) == Pieces(u[1..], u);
    } else {
      PiecesAll(s[1..], t);
      assert s[1..][|s[1..]| - 1..] == s[|s| - 1..];
    }
  }
}
