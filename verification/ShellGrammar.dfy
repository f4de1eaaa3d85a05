/**
 The grammar of the shell's command language, by itself, and the proof that the parser accepts
 exactly the lines it derives, each with the tree it derives.
 */
module ShellGrammar {
  import opened ShellSyntax

  // ---------------------------------------------------------------- the tokens of a line

  function TokOf(s: string, t: Token): (p: PTok)
    requires t.q <= t.eq <= |s|
  {
    match t.tok
    case Sym(c) => S(c)
    case Append => A
    case _ => W(s[t.q..t.eq])
  }

  /** The tokens of the line from place i on. */
  function Toks(s: string, i: nat): (ts: seq<PTok>)
    requires i <= |s|
    decreases |s| - i
  {
    var t := GetToken(s, i);
    if t.tok.End? then [] else [TokOf(s, t)] + Toks(s, t.next)
  }

  /** White space before the next token does not matter. */
  lemma SkipToks(s: string, i: nat)
    requires i <= |s|
    ensures Toks(s, Skip(s, i)) == Toks(s, i) && GetToken(s, Skip(s, i)) == GetToken(s, i)
    ensures Skip(s, Skip(s, i)) == Skip(s, i)
  {
    SkipToken(s, i);
    hide Skip, GetToken;
  }

  lemma SkipToken(s: string, i: nat)
    requires i <= |s|
    ensures GetToken(s, Skip(s, i)) == GetToken(s, i) && Skip(s, Skip(s, i)) == Skip(s, i)
  {
    SkipTwice(s, i);
  }

  lemma NextToks(s: string, i: nat)
    requires i <= |s|
    ensures var t := GetToken(s, Skip(s, i));
      if t.tok.End? then Toks(s, i) == [] && Skip(s, i) == |s|
      else Toks(s, i) != [] && Toks(s, i)[0] == TokOf(s, t) && Toks(s, t.next) == Toks(s, i)[1..]
  {
    SkipToks(s, i);
  }

  /** The first token begins with one of the characters. */
  predicate Starts(ts: seq<PTok>, toks: string) {
    ts != [] && ((ts[0].S? && ts[0].c in toks) || (ts[0].A? && '>' in toks))
  }

  /** What peek sees is the first token. */
  lemma PeekToks(s: string, i: nat, toks: string)
    requires i <= |s| && forall k :: 0 <= k < |toks| ==> Symbol(toks[k])
    ensures Peek(s, i, toks) <==> Starts(Toks(s, i), toks)
  {
    var t := GetToken(s, i);
    if t.q < |s| && s[t.q] in toks {
      assert Symbol(s[t.q]);
    }
  }

  // ---------------------------------------------------------------- the grammar

  /** p is the sign of a redirection. */
  predicate Sign(p: PTok, out: bool) {
    if out then p == S('>') || p == A else p == S('<')
  }

  /** ts consists of the words ws and the redirections rs, each in their order. */
  ghost predicate Mixed(ts: seq<PTok>, ws: seq<string>, rs: seq<Redirect<string>>)
    decreases |ts|
  {
    if ts == [] then ws == [] && rs == []
    else if ts[0].W? then ws != [] && ts[0].w == ws[0] && Mixed(ts[1..], ws[1..], rs)
    else rs != [] && |ts| >= 2 && Sign(ts[0], rs[0].out) && ts[1] == W(rs[0].file) && Mixed(ts[2..], ws, rs[1..])
  }

  /** A simple command: at most 9 words, and redirections anywhere among them. */
  ghost predicate SimpleAs(ts: seq<PTok>, t: Cmd<string>, ws: seq<string>, rs: seq<Redirect<string>>) {
    t == Wrap(Exec(ws), rs) && |ws| < MAXARGS && Mixed(ts, ws, rs)
  }

  /** A block: a line in parentheses, and redirections behind it. */
  ghost predicate BlockAs(ts: seq<PTok>, t: Cmd<string>, a: seq<PTok>, b: seq<PTok>, c: Cmd<string>,
                          rs: seq<Redirect<string>>)
    decreases |ts|, 0
  {
    ts == [S('(')] + a + [S(')')] + b && t == Wrap(c, rs) && Mixed(b, [], rs) && LineIs(a, c)
  }

  ghost predicate ExecIs(ts: seq<PTok>, t: Cmd<string>)
    decreases |ts|, 1
  {
    (exists ws, rs :: SimpleAs(ts, t, ws, rs)) || (exists a, b, c, rs :: BlockAs(ts, t, a, b, c, rs))
  }

  ghost predicate PipeAs(ts: seq<PTok>, t: Cmd<string>, a: seq<PTok>, b: seq<PTok>)
    decreases |ts|, 0
  {
    t.Pipe? && ts == a + [S('|')] + b && ExecIs(a, t.left) && PipeIs(b, t.right)
  }

  /** A pipe of commands, grouped to the right. */
  ghost predicate PipeIs(ts: seq<PTok>, t: Cmd<string>)
    decreases |ts|, 2
  {
    ExecIs(ts, t) || exists a, b :: PipeAs(ts, t, a, b)
  }

  /** A pipe, and any number of & behind it. */
  ghost predicate BackIs(ts: seq<PTok>, t: Cmd<string>)
    decreases |ts|, 3
  {
    PipeIs(ts, t) || (t.Back? && ts != [] && ts[|ts| - 1] == S('&') && BackIs(ts[..|ts| - 1], t.job))
  }

  ghost predicate LineAs(ts: seq<PTok>, t: Cmd<string>, a: seq<PTok>, b: seq<PTok>)
    decreases |ts|, 0
  {
    t.List? && ts == a + [S(';')] + b && BackIs(a, t.first) && LineIs(b, t.second)
  }

  /** A list of such, grouped to the right. */
  ghost predicate LineIs(ts: seq<PTok>, t: Cmd<string>)
    decreases |ts|, 4
  {
    BackIs(ts, t) || exists a, b :: LineAs(ts, t, a, b)
  }

  // ---------------------------------------------------------------- words and redirections

  function RedirText(s: string, r: Redirect<Span>): (t: Redirect<string>) {
    Redirect(SpanText(s, r.file), r.out)
  }

  function RedirTexts(s: string, rs: seq<Redirect<Span>>): (ts: seq<Redirect<string>>)
    ensures |ts| == |rs|
  {
    seq(|rs|, k requires 0 <= k < |rs| => RedirText(s, rs[k]))
  }

  lemma RedirTextsSnoc(s: string, rs: seq<Redirect<Span>>, d: Redirect<Span>)
    ensures RedirTexts(s, rs + [d]) == RedirTexts(s, rs) + [RedirText(s, d)]
  {
  }

  lemma TextsSnoc(s: string, ws: seq<Span>, w: Span)
    ensures Texts(s, ws + [w]) == Texts(s, ws) + [SpanText(s, w)]
  {
  }

  lemma {:induction false} WrapText(s: string, c: Cmd<Span>, rs: seq<Redirect<Span>>)
    ensures Text(s, Wrap(c, rs)) == Wrap(Text(s, c), RedirTexts(s, rs))
    decreases |rs|
  {
    if rs != [] {
      WrapText(s, Redir(c, rs[0].file, rs[0].out), rs[1..]);
      assert RedirTexts(s, rs)[0] == RedirText(s, rs[0]);
      assert RedirTexts(s, rs[1..]) == RedirTexts(s, rs)[1..];
    }
  }

  /** Redirections, then a mix. */
  lemma {:induction false} MixedConcat(a: seq<PTok>, ra: seq<Redirect<string>>, b: seq<PTok>, ws: seq<string>,
                                       rb: seq<Redirect<string>>)
    requires Mixed(a, [], ra) && Mixed(b, ws, rb)
    ensures Mixed(a + b, ws, ra + rb)
    decreases |a|
  {
    if a == [] {
      assert a + b == b && ra + rb == rb;
    } else {
      MixedConcat(a[2..], ra[1..], b, ws, rb);
      assert (a + b)[2..] == a[2..] + b && (ra + rb)[1..] == ra[1..] + rb;
    }
  }

  // ---------------------------------------------------------------- what the parser accepts is derived

  /** One redirection. */
  lemma RedirTaken(s: string, i: nat, acc: seq<Redirect<Span>>) returns (p: PTok, d: Redirect<Span>, j: nat)
    requires i <= |s| && Peek(s, i, "<>") && ParseRedirs(s, i, acc).Ok?
    ensures i < j <= |s| && ParseRedirs(s, i, acc) == ParseRedirs(s, j, acc + [d])
    ensures Sign(p, d.out) && Toks(s, i) == [p, W(SpanText(s, d.file))] + Toks(s, j)
  {
    hide Toks, Skip;
    var t := GetToken(s, Skip(s, i));
    var f := GetToken(s, t.next);
    d, j := Redirect(Span(f.q, f.eq), t.tok != Sym('<')), f.next;
    PeekToks(s, i, "<>");
    NextToks(s, i);
    SkipToks(s, t.next);
    NextToks(s, t.next);
    p := Toks(s, i)[0];
    assert Toks(s, i) == [p] + Toks(s, t.next);
    assert Toks(s, t.next) == [W(SpanText(s, d.file))] + Toks(s, j);
  }

  lemma RedirsEnd(s: string, i: nat, acc: seq<Redirect<Span>>)
    requires i <= |s| && !Peek(s, i, "<>")
    ensures ParseRedirs(s, i, acc) == Ok(acc, Skip(s, i)) && Toks(s, Skip(s, i)) == Toks(s, i)
  {
    SkipToks(s, i);
  }

  lemma {:induction false} RedirsDerived(s: string, i: nat, acc: seq<Redirect<Span>>)
    returns (ts: seq<PTok>, rs: seq<Redirect<string>>)
    requires i <= |s| && ParseRedirs(s, i, acc).Ok?
    ensures var r := ParseRedirs(s, i, acc);
      Toks(s, i) == ts + Toks(s, r.at) && RedirTexts(s, r.v) == RedirTexts(s, acc) + rs && Mixed(ts, [], rs)
    decreases |s| - i
  {
    hide Toks, RedirTexts, Peek, ParseRedirs, Skip, Sign;
    if Peek(s, i, "<>") {
      var p, d, j := RedirTaken(s, i, acc);
      var us, qs := RedirsDerived(s, j, acc + [d]);
      RedirTextsSnoc(s, acc, d);
      var x := RedirText(s, d);
      ts, rs := [p, W(x.file)] + us, [x] + qs;
      assert ts[2..] == us && rs[1..] == qs && !p.W? by { SignIs(p, d.out); }
      assert RedirTexts(s, acc) + [x] + qs == RedirTexts(s, acc) + rs;
    } else {
      ts, rs := [], [];
      RedirsEnd(s, i, acc);
      assert RedirTexts(s, acc) + rs == RedirTexts(s, acc);
    }
  }

  lemma SignIs(p: PTok, out: bool)
    requires Sign(p, out)
    ensures !p.W?
  {
  }

  /** One argument, and the redirections behind it. */
  lemma ArgTaken(s: string, i: nat, c: Simple<Span>) returns (x: Span, j: nat)
    requires i <= |s| && ParseArgs(s, i, c).Ok? && !Peek(s, i, "|)&;") && !GetToken(s, Skip(s, i)).tok.End?
    ensures i < j <= |s| && |c.args| + 1 < MAXARGS && Toks(s, i) == [W(SpanText(s, x))] + Toks(s, j)
    ensures ParseRedirs(s, j, c.rs).Ok? && i < ParseRedirs(s, j, c.rs).at <= |s|
    ensures var p := ParseRedirs(s, j, c.rs); ParseArgs(s, i, c) == ParseArgs(s, p.at, Simple(c.args + [x], p.v))
  {
    hide Toks, Skip, ParseRedirs;
    var t := GetToken(s, Skip(s, i));
    x, j := Span(t.q, t.eq), t.next;
    NextToks(s, i);
    assert Toks(s, i) == [Toks(s, i)[0]] + Toks(s, j);
  }

  lemma ArgsEnd(s: string, i: nat, c: Simple<Span>)
    requires i <= |s| && (Peek(s, i, "|)&;") || GetToken(s, Skip(s, i)).tok.End?)
    ensures ParseArgs(s, i, c).Ok? && ParseArgs(s, i, c).v == c && Toks(s, ParseArgs(s, i, c).at) == Toks(s, i)
  {
    SkipToks(s, i);
    NextToks(s, i);
  }

  lemma {:induction false} ArgsDerived(s: string, i: nat, c: Simple<Span>)
    returns (ts: seq<PTok>, ws: seq<string>, rs: seq<Redirect<string>>)
    requires i <= |s| && ParseArgs(s, i, c).Ok? && |c.args| < MAXARGS
    ensures var r := ParseArgs(s, i, c);
      && Toks(s, i) == ts + Toks(s, r.at) && |r.v.args| < MAXARGS && Mixed(ts, ws, rs)
      && Texts(s, r.v.args) == Texts(s, c.args) + ws && RedirTexts(s, r.v.rs) == RedirTexts(s, c.rs) + rs
    decreases |s| - i
  {
    hide Toks, RedirTexts, Peek, ParseRedirs, ParseArgs, Texts, GetToken, Skip, SpanText;
    if Peek(s, i, "|)&;") || GetToken(s, Skip(s, i)).tok.End? {
      ts, ws, rs := [], [], [];
      ArgsEnd(s, i, c);
      assert Texts(s, c.args) + ws == Texts(s, c.args) && RedirTexts(s, c.rs) + rs == RedirTexts(s, c.rs);
    } else {
      var x, j := ArgTaken(s, i, c);
      var us, qs := RedirsDerived(s, j, c.rs);
      var p := ParseRedirs(s, j, c.rs);
      var vs, ys, ps := ArgsDerived(s, p.at, Simple(c.args + [x], p.v));
      MixedConcat(us, qs, vs, ys, ps);
      TextsSnoc(s, c.args, x);
      ts, ws, rs := [W(SpanText(s, x))] + (us + vs), [SpanText(s, x)] + ys, qs + ps;
      assert ts[1..] == us + vs && ws[1..] == ys;
      assert Texts(s, c.args) + [SpanText(s, x)] + ys == Texts(s, c.args) + ws;
      assert RedirTexts(s, c.rs) + qs + ps == RedirTexts(s, c.rs) + rs;
      var rest := Toks(s, ParseArgs(s, i, c).at);
      assert [W(SpanText(s, x))] + (us + (vs + rest)) == ts + rest;
    }
  }

  /** The parse result r takes the tokens ts from place i on. */
  ghost predicate Took(s: string, i: nat, r: Res<Cmd<Span>>, ts: seq<PTok>)
    requires i <= |s|
  {
    r.Ok? && r.at <= |s| && Toks(s, i) == ts + Toks(s, r.at)
  }

  lemma NoTexts(s: string)
    ensures RedirTexts(s, []) == []
  {
  }

  lemma SimpleDerived(s: string, i: nat) returns (ts: seq<PTok>)
    requires i <= |s| && !Peek(s, i, "(") && ParseExec(s, i).Ok?
    ensures Took(s, i, ParseExec(s, i), ts) && ExecIs(ts, Text(s, ParseExec(s, i).v))
  {
    hide Toks, RedirTexts, Peek, ParseRedirs, ParseArgs, Skip, Wrap, Mixed, BlockAs;
    SkipToks(s, i);
    var us, qs := RedirsDerived(s, Skip(s, i), []);
    var p := ParseRedirs(s, Skip(s, i), []);
    var vs, ws, ps := ArgsDerived(s, p.at, Simple([], p.v));
    var a := ParseArgs(s, p.at, Simple([], p.v));
    MixedConcat(us, qs, vs, ws, ps);
    ts := us + vs;
    WrapText(s, Exec(a.v.args), a.v.rs);
    NoTexts(s);
    assert [] + qs == qs && [] + ws == ws && Texts(s, []) == [];
    assert us + (vs + Toks(s, a.at)) == ts + Toks(s, a.at);
    assert SimpleAs(ts, Text(s, ParseExec(s, i).v), ws, qs + ps);
  }

  lemma {:induction false} BlockDerived(s: string, i: nat) returns (ts: seq<PTok>)
    requires i <= |s| && ParseBlock(s, i).Ok?
    ensures Took(s, i, ParseBlock(s, i), ts) && ExecIs(ts, Text(s, ParseBlock(s, i).v))
    decreases |s| - i, 0
  {
    hide Toks, RedirTexts, Peek, ParseRedirs, ParseLine, Skip, Wrap, Mixed, SimpleAs, LineIs, GetToken, Text;
    var o := SymbolTaken(s, i, '(');
    var a := LineDerived(s, o);
    var l := ParseLine(s, o);
    var j := SymbolTaken(s, l.at, ')');
    var b, rs := RedirsDerived(s, j, []);
    var p := ParseRedirs(s, j, []);
    WrapText(s, l.v, p.v);
    NoTexts(s);
    assert [] + rs == rs;
    ts := [S('(')] + a + [S(')')] + b;
    assert [S('(')] + (a + ([S(')')] + (b + Toks(s, p.at)))) == ts + Toks(s, p.at);
    assert BlockAs(ts, Text(s, ParseBlock(s, i).v), a, b, Text(s, l.v), rs);
  }

  lemma {:induction false} ExecDerived(s: string, i: nat) returns (ts: seq<PTok>)
    requires i <= |s| && ParseExec(s, i).Ok?
    ensures Took(s, i, ParseExec(s, i), ts) && ExecIs(ts, Text(s, ParseExec(s, i).v))
    decreases |s| - i, 1
  {
    hide Toks, Peek, ParseBlock, Skip, ExecIs, Text, ParseArgs, ParseRedirs;
    if Peek(s, i, "(") {
      SkipToks(s, i);
      ts := BlockDerived(s, Skip(s, i));
    } else {
      ts := SimpleDerived(s, i);
    }
  }

  /** The symbol c at place i. */
  lemma SymbolTaken(s: string, i: nat, c: char) returns (o: nat)
    requires i <= |s| && Symbol(c) && c != '>' && Peek(s, i, [c])
    ensures o == GetToken(s, Skip(s, i)).next && i < o <= |s| && Toks(s, i) == [S(c)] + Toks(s, o)
  {
    hide Toks, Skip;
    PeekToks(s, i, [c]);
    NextToks(s, i);
    o := GetToken(s, Skip(s, i)).next;
  }

  lemma {:induction false} PipeDerived(s: string, i: nat) returns (ts: seq<PTok>)
    requires i <= |s| && ParsePipe(s, i).Ok?
    ensures Took(s, i, ParsePipe(s, i), ts) && PipeIs(ts, Text(s, ParsePipe(s, i).v))
    decreases |s| - i, 2
  {
    hide Toks, Peek, ParseExec, Skip, ExecIs, GetToken;
    var a := ExecDerived(s, i);
    var e := ParseExec(s, i);
    if Peek(s, e.at, "|") {
      var o := SymbolTaken(s, e.at, '|');
      var b := PipeDerived(s, o);
      var p := ParsePipe(s, o);
      ts := a + [S('|')] + b;
      assert a + ([S('|')] + (b + Toks(s, p.at))) == ts + Toks(s, p.at);
      assert PipeAs(ts, Text(s, ParsePipe(s, i).v), a, b);
    } else {
      ts := a;
      SkipToks(s, e.at);
    }
  }

  lemma {:induction false} BacksDerived(s: string, i: nat, c: Cmd<Span>, ps: seq<PTok>) returns (ts: seq<PTok>)
    requires i <= |s| && BackIs(ps, Text(s, c))
    ensures var r := ParseBacks(s, i, c);
      Toks(s, i) == ts + Toks(s, r.at) && BackIs(ps + ts, Text(s, r.v))
    decreases |s| - i
  {
    hide Toks, Peek, Skip, GetToken, PipeIs;
    if Peek(s, i, "&") {
      var o := SymbolTaken(s, i, '&');
      var qs := ps + [S('&')];
      assert qs[..|qs| - 1] == ps;
      var us := BacksDerived(s, o, Back(c), qs);
      ts := [S('&')] + us;
      assert qs + us == ps + ts;
    } else {
      ts := [];
      SkipToks(s, i);
      assert ps + ts == ps;
    }
  }

  lemma {:induction false} LineDerived(s: string, i: nat) returns (ts: seq<PTok>)
    requires i <= |s| && ParseLine(s, i).Ok?
    ensures Took(s, i, ParseLine(s, i), ts) && LineIs(ts, Text(s, ParseLine(s, i).v))
    decreases |s| - i, 3
  {
    hide Toks, Peek, ParsePipe, ParseBacks, Skip, GetToken, BackIs;
    var ps := PipeDerived(s, i);
    var p := ParsePipe(s, i);
    PipeBack(ps, Text(s, p.v));
    var bs := BacksDerived(s, p.at, p.v, ps);
    var b := ParseBacks(s, p.at, p.v);
    var a := ps + bs;
    assert ps + (bs + Toks(s, b.at)) == a + Toks(s, b.at);
    if Peek(s, b.at, ";") {
      var o := SymbolTaken(s, b.at, ';');
      var ds := LineDerived(s, o);
      var d := ParseLine(s, o);
      ts := a + [S(';')] + ds;
      assert a + ([S(';')] + (ds + Toks(s, d.at))) == ts + Toks(s, d.at);
      assert LineAs(ts, Text(s, ParseLine(s, i).v), a, ds);
    } else {
      ts := a;
      SkipToks(s, b.at);
    }
  }

  lemma PipeBack(ts: seq<PTok>, t: Cmd<string>)
    requires PipeIs(ts, t)
    ensures BackIs(ts, t)
  {
  }

  // ---------------------------------------------------------------- what is derived the parser accepts

  /** The first token of ts, if any, is a symbol among toks. */
  predicate Follows(ts: seq<PTok>, toks: string) {
    ts == [] || (ts[0].S? && ts[0].c in toks)
  }

  /** The parse result r is the tree t, with the tokens rest left. */
  ghost predicate Gives(s: string, r: Res<Cmd<Span>>, t: Cmd<string>, rest: seq<PTok>) {
    r.Ok? && r.at <= |s| && Text(s, r.v) == t && Toks(s, r.at) == rest
  }

  /** One redirection. */
  lemma RedirGiven(s: string, i: nat, acc: seq<Redirect<Span>>, r: Redirect<string>, ts: seq<PTok>)
    returns (j: nat, d: Redirect<Span>)
    requires i <= |s| && |Toks(s, i)| >= 2 && Sign(Toks(s, i)[0], r.out) && Toks(s, i)[1] == W(r.file)
    requires Toks(s, i)[2..] == ts
    ensures j <= |s| && ParseRedirs(s, i, acc) == ParseRedirs(s, j, acc + [d]) && Toks(s, j) == ts
    ensures RedirText(s, d) == r
  {
    hide Toks, Skip;
    PeekToks(s, i, "<>");
    NextToks(s, i);
    var t := GetToken(s, Skip(s, i));
    SkipToks(s, t.next);
    NextToks(s, t.next);
    var f := GetToken(s, t.next);
    j, d := f.next, Redirect(Span(f.q, f.eq), t.tok != Sym('<'));
    assert Toks(s, i)[1..][0] == Toks(s, i)[1] && Toks(s, i)[1..][1..] == ts;
  }

  /** The redirections at the front of a mix. */
  lemma {:induction false} RedirsParse(s: string, i: nat, acc: seq<Redirect<Span>>, ts: seq<PTok>, ws: seq<string>,
                                       rs: seq<Redirect<string>>, rest: seq<PTok>)
    returns (us: seq<PTok>, ps: seq<Redirect<string>>, qs: seq<Redirect<string>>)
    requires i <= |s| && Toks(s, i) == ts + rest && Mixed(ts, ws, rs) && Follows(rest, "|)&;")
    ensures var r := ParseRedirs(s, i, acc);
      r.Ok? && RedirTexts(s, r.v) == RedirTexts(s, acc) + ps && Toks(s, r.at) == us + rest
    ensures rs == ps + qs && Mixed(us, ws, qs) && (us == [] || us[0].W?) && |us| <= |ts|
    decreases |ts|
  {
    hide ParseRedirs, Toks, Skip, RedirTexts, Sign;
    if ts == [] || ts[0].W? {
      us, ps, qs := ts, [], rs;
      PeekToks(s, i, "<>");
      RedirsEnd(s, i, acc);
      assert RedirTexts(s, acc) + ps == RedirTexts(s, acc) && ps + qs == rs;
    } else {
      assert (ts + rest)[2..] == ts[2..] + rest;
      var j, d := RedirGiven(s, i, acc, rs[0], ts[2..] + rest);
      var bs;
      us, bs, qs := RedirsParse(s, j, acc + [d], ts[2..], ws, rs[1..], rest);
      ps := [rs[0]] + bs;
      RedirTextsSnoc(s, acc, d);
      assert RedirTexts(s, acc) + [rs[0]] + bs == RedirTexts(s, acc) + ps;
      assert rs == [rs[0]] + rs[1..] && [rs[0]] + (bs + qs) == ps + qs;
    }
  }

  /** One argument. */
  lemma ArgGiven(s: string, i: nat, c: Simple<Span>, w: string, ts: seq<PTok>) returns (j: nat, x: Span)
    requires i <= |s| && Toks(s, i) == [W(w)] + ts && |c.args| + 1 < MAXARGS
    ensures j <= |s| && Toks(s, j) == ts && SpanText(s, x) == w
    ensures ParseArgs(s, i, c) ==
      match ParseRedirs(s, j, c.rs)
      case Fail => Fail
      case Ok(rs, k) => ParseArgs(s, k, Simple(c.args + [x], rs))
  {
    hide Toks, Skip, ParseRedirs;
    PeekToks(s, i, "|)&;");
    NextToks(s, i);
    var t := GetToken(s, Skip(s, i));
    j, x := t.next, Span(t.q, t.eq);
    assert ([W(w)] + ts)[1..] == ts;
  }

  lemma ArgsStop(s: string, i: nat, c: Simple<Span>)
    requires i <= |s| && Follows(Toks(s, i), "|)&;")
    ensures ParseArgs(s, i, c).Ok? && ParseArgs(s, i, c).v == c && Toks(s, ParseArgs(s, i, c).at) == Toks(s, i)
  {
    hide Toks, Skip;
    PeekToks(s, i, "|)&;");
    NextToks(s, i);
    ArgsEnd(s, i, c);
  }

  lemma {:induction false} ArgsParse(s: string, i: nat, c: Simple<Span>, ts: seq<PTok>, ws: seq<string>,
                                     rs: seq<Redirect<string>>, rest: seq<PTok>)
    requires i <= |s| && Toks(s, i) == ts + rest && Mixed(ts, ws, rs) && Follows(rest, "|)&;")
    requires (ts == [] || ts[0].W?) && |c.args| + |ws| < MAXARGS
    ensures var r := ParseArgs(s, i, c);
      && r.Ok? && Texts(s, r.v.args) == Texts(s, c.args) + ws && RedirTexts(s, r.v.rs) == RedirTexts(s, c.rs) + rs
      && Toks(s, r.at) == rest
    decreases |ts|
  {
    hide ParseArgs, ParseRedirs, Toks, Skip, RedirTexts, SpanText, Texts, Follows;
    if ts == [] {
      assert ts + rest == rest;
      ArgsStop(s, i, c);
      assert Texts(s, c.args) + ws == Texts(s, c.args) && RedirTexts(s, c.rs) + rs == RedirTexts(s, c.rs);
    } else {
      assert ts + rest == [W(ws[0])] + (ts[1..] + rest);
      var j, x := ArgGiven(s, i, c, ws[0], ts[1..] + rest);
      var us, ps, qs := RedirsParse(s, j, c.rs, ts[1..], ws[1..], rs, rest);
      var p := ParseRedirs(s, j, c.rs);
      ArgsParse(s, p.at, Simple(c.args + [x], p.v), us, ws[1..], qs, rest);
      TextsSnoc(s, c.args, x);
      assert Texts(s, c.args) + [ws[0]] + ws[1..] == Texts(s, c.args) + ws;
      assert RedirTexts(s, c.rs) + ps + qs == RedirTexts(s, c.rs) + rs;
    }
  }

  lemma SimpleParses(ts: seq<PTok>, t: Cmd<string>, ws: seq<string>, rs: seq<Redirect<string>>, s: string, i: nat,
                     rest: seq<PTok>)
    requires SimpleAs(ts, t, ws, rs) && i <= |s| && Toks(s, i) == ts + rest && Follows(rest, "|)&;")
    ensures Gives(s, ParseExec(s, i), t, rest)
  {
    hide ParseArgs, ParseRedirs, Toks, Skip, RedirTexts, SpanText, Wrap, Peek;
    MixedStart(ts, ws, rs);
    PeekToks(s, i, "(");
    SkipToks(s, i);
    var us, ps, qs := RedirsParse(s, Skip(s, i), [], ts, ws, rs, rest);
    var p := ParseRedirs(s, Skip(s, i), []);
    ArgsParse(s, p.at, Simple([], p.v), us, ws, qs, rest);
    var a := ParseArgs(s, p.at, Simple([], p.v));
    WrapText(s, Exec(a.v.args), a.v.rs);
    NoTexts(s);
    assert [] + ws == ws && [] + ps == ps && Texts(s, []) == [];
  }

  /** A mix does not start with a parenthesis. */
  lemma MixedStart(ts: seq<PTok>, ws: seq<string>, rs: seq<Redirect<string>>)
    requires Mixed(ts, ws, rs)
    ensures ts != [] && ts[0].S? ==> ts[0].c != '('
  {
  }

  /** Reading the symbol c, and what peek says of it. */
  lemma SymbolGiven(s: string, i: nat, c: char, ts: seq<PTok>)
    requires i <= |s| && Symbol(c) && Toks(s, i) == [S(c)] + ts
    ensures Peek(s, i, [c]) && GetToken(s, Skip(s, i)).next <= |s| && Toks(s, GetToken(s, Skip(s, i)).next) == ts
  {
    hide Toks, Skip;
    PeekToks(s, i, [c]);
    NextToks(s, i);
    assert ([S(c)] + ts)[1..] == ts;
  }

  lemma {:induction false} BlockParses(ts: seq<PTok>, t: Cmd<string>, a: seq<PTok>, b: seq<PTok>, c: Cmd<string>,
                                       rs: seq<Redirect<string>>, s: string, i: nat, rest: seq<PTok>)
    requires BlockAs(ts, t, a, b, c, rs) && i <= |s| && Toks(s, i) == ts + rest && Follows(rest, "|)&;")
    ensures Gives(s, ParseExec(s, i), t, rest)
    decreases |ts|, 0
  {
    hide ParseLine, ParseRedirs, ParseArgs, Toks, Skip, RedirTexts, Wrap, Peek, GetToken, LineIs, Mixed, Text;
    var tail := [S(')')] + (b + rest);
    assert ts + rest == [S('(')] + (a + tail);
    SymbolGiven(s, i, '(', a + tail);
    SkipToks(s, i);
    var j := Skip(s, i);
    SymbolGiven(s, j, '(', a + tail);
    var o := GetToken(s, Skip(s, j)).next;
    LineParses(a, c, s, o, tail);
    var l := ParseLine(s, o);
    SymbolGiven(s, l.at, ')', b + rest);
    var k := GetToken(s, Skip(s, l.at)).next;
    var us, ps, qs := RedirsParse(s, k, [], b, [], rs, rest);
    MixedNone(us, qs);
    var p := ParseRedirs(s, k, []);
    WrapText(s, l.v, p.v);
    NoTexts(s);
    assert [] + ps == ps && ps + [] == ps && [] + rest == rest;
  }

  lemma MixedNone(us: seq<PTok>, qs: seq<Redirect<string>>)
    requires Mixed(us, [], qs) && (us == [] || us[0].W?)
    ensures us == [] && qs == []
  {
  }

  lemma {:induction false} ExecParses(ts: seq<PTok>, t: Cmd<string>, s: string, i: nat, rest: seq<PTok>)
    requires ExecIs(ts, t) && i <= |s| && Toks(s, i) == ts + rest && Follows(rest, "|)&;")
    ensures Gives(s, ParseExec(s, i), t, rest)
    decreases |ts|, 1
  {
    hide Toks, ParseExec, Gives, SimpleAs, BlockAs;
    if ws, rs :| SimpleAs(ts, t, ws, rs) {
      SimpleParses(ts, t, ws, rs, s, i, rest);
    } else {
      var a, b, c, rs :| BlockAs(ts, t, a, b, c, rs);
      BlockParses(ts, t, a, b, c, rs, s, i, rest);
    }
  }

  lemma {:induction false} PipeParses(ts: seq<PTok>, t: Cmd<string>, s: string, i: nat, rest: seq<PTok>)
    requires PipeIs(ts, t) && i <= |s| && Toks(s, i) == ts + rest && Follows(rest, ")&;")
    ensures Gives(s, ParsePipe(s, i), t, rest)
    decreases |ts|, 2
  {
    hide Toks, ExecIs, ParseExec, Skip, Peek, GetToken;
    if ExecIs(ts, t) {
      ExecParses(ts, t, s, i, rest);
      var r := ParseExec(s, i);
      PeekToks(s, r.at, "|");
      SkipToks(s, r.at);
    } else {
      var a, b :| PipeAs(ts, t, a, b);
      var tail := [S('|')] + (b + rest);
      assert ts + rest == a + tail;
      ExecParses(a, t.left, s, i, tail);
      var r := ParseExec(s, i);
      SymbolGiven(s, r.at, '|', b + rest);
      PipeParses(b, t.right, s, GetToken(s, Skip(s, r.at)).next, rest);
    }
  }

  /** parsepipe and the loop behind it reach t, with rest left. */
  lemma {:induction false} BackReaches(ts: seq<PTok>, t: Cmd<string>, s: string, i: nat, rest: seq<PTok>)
    returns (j: nat, c: Cmd<Span>)
    requires BackIs(ts, t) && i <= |s| && Toks(s, i) == ts + rest && Follows(rest, ")&;")
    ensures j <= |s| && Text(s, c) == t && Toks(s, j) == rest && ParsePipe(s, i).Ok?
    ensures ParseBacks(s, ParsePipe(s, i).at, ParsePipe(s, i).v) == ParseBacks(s, j, c)
    decreases |ts|, 3
  {
    hide Toks, PipeIs, ParsePipe, Skip, Peek, GetToken;
    if PipeIs(ts, t) {
      PipeParses(ts, t, s, i, rest);
      j, c := ParsePipe(s, i).at, ParsePipe(s, i).v;
    } else {
      var a, tail := ts[..|ts| - 1], [S('&')] + rest;
      assert ts + rest == a + tail;
      var k, d := BackReaches(a, t.job, s, i, tail);
      SymbolGiven(s, k, '&', rest);
      j, c := GetToken(s, Skip(s, k)).next, Back(d);
    }
  }

  lemma {:induction false} LineParses(ts: seq<PTok>, t: Cmd<string>, s: string, i: nat, rest: seq<PTok>)
    requires LineIs(ts, t) && i <= |s| && Toks(s, i) == ts + rest && Follows(rest, ")")
    ensures Gives(s, ParseLine(s, i), t, rest)
    decreases |ts|, 4
  {
    hide Toks, BackIs, ParsePipe, Skip, Peek, GetToken;
    if BackIs(ts, t) {
      var j, c := BackReaches(ts, t, s, i, rest);
      BacksStop(s, j, c);
      PeekToks(s, Skip(s, j), ";");
      SkipToks(s, Skip(s, j));
    } else {
      var a, b :| LineAs(ts, t, a, b);
      var tail := [S(';')] + (b + rest);
      assert ts + rest == a + tail;
      var j, c := BackReaches(a, t.first, s, i, tail);
      BacksStop(s, j, c);
      SymbolGiven(s, Skip(s, j), ';', b + rest);
      LineParses(b, t.second, s, GetToken(s, Skip(s, Skip(s, j))).next, rest);
    }
  }

  lemma BacksStop(s: string, j: nat, c: Cmd<Span>)
    requires j <= |s| && Follows(Toks(s, j), ");")
    ensures ParseBacks(s, j, c) == Ok(c, Skip(s, j)) && Toks(s, Skip(s, j)) == Toks(s, j)
  {
    hide Toks, Skip;
    PeekToks(s, j, "&");
    SkipToks(s, j);
  }

  // ---------------------------------------------------------------- the parser is the grammar

  /** The parser accepts exactly the lines that the grammar derives, and the tree is the one derived. */
  lemma ParsesIff(s: string, t: Cmd<string>)
    ensures ParseCmd(s).Ok? && Text(s, ParseCmd(s).v) == t <==> LineIs(Toks(s, 0), t)
  {
    hide Toks, LineIs, ParseLine, Skip, Text;
    if LineIs(Toks(s, 0), t) {
      assert Toks(s, 0) + [] == Toks(s, 0);
      LineParses(Toks(s, 0), t, s, 0, []);
      NextToks(s, ParseLine(s, 0).at);
    }
    if ParseCmd(s).Ok? {
      var ts := LineDerived(s, 0);
      var l := ParseLine(s, 0);
      SkipToks(s, l.at);
      NextToks(s, l.at);
      assert ts + [] == ts;
    }
  }

  /** So no line has two trees. */
  lemma OneTree(s: string, t: Cmd<string>, u: Cmd<string>)
    requires LineIs(Toks(s, 0), t) && LineIs(Toks(s, 0), u)
    ensures t == u
  {
    ParsesIff(s, t);
    ParsesIff(s, u);
  }
}
