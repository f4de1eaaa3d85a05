/** Parsing a printed command tree gives the tree back. */
module ShellRoundTrip {
  import opened ShellSyntax
  import opened ShellGrammar

  // ---------------------------------------------------------------- a printed tree is derived

  lemma {:induction false} WrapSnoc(c: Cmd<string>, rs: seq<Redirect<string>>, r: Redirect<string>)
    ensures Wrap(c, rs + [r]) == Redir(Wrap(c, rs), r.file, r.out)
    decreases |rs|
  {
    if rs == [] {
      assert (rs + [r])[1..] == [];
    } else {
      WrapSnoc(Redir(c, rs[0].file, rs[0].out), rs[1..], r);
      assert (rs + [r])[1..] == rs[1..] + [r];
    }
  }

  lemma {:induction false} WrapCore(t: Cmd<string>)
    ensures Wrap(Core(t), Redirs(t)) == t
  {
    if t.Redir? {
      WrapCore(t.cmd);
      WrapSnoc(Core(t), Redirs(t.cmd), Redirect(t.file, t.out));
    }
  }

  lemma {:induction false} RedirsMixed(rs: seq<Redirect<string>>)
    ensures Mixed(RedirToks(rs), [], rs)
  {
    if rs != [] {
      RedirsMixed(rs[1..]);
      assert RedirToks(rs)[2..] == RedirToks(rs[1..]);
    }
  }

  lemma {:induction false} WordsMixed(ws: seq<string>, rs: seq<Redirect<string>>)
    ensures Mixed(Words(ws) + RedirToks(rs), ws, rs)
  {
    if ws == [] {
      RedirsMixed(rs);
      assert Words(ws) + RedirToks(rs) == RedirToks(rs);
    } else {
      WordsMixed(ws[1..], rs);
      assert (Words(ws) + RedirToks(rs))[1..] == Words(ws[1..]) + RedirToks(rs);
    }
  }

  lemma {:induction false} PrintedExec(t: Cmd<string>)
    requires Legal(t)
    ensures ExecIs(PrintExec(t), t)
    decreases t, if t.Exec? || t.Redir? then 0 else 4
  {
    hide Mixed, Wrap, LineIs, RedirToks, Words, PrintLine, Redirs;
    var c, rs := Core(t), Redirs(t);
    CoreRedirsLegal(t);
    WrapCore(t);
    if c.Exec? {
      WordsMixed(c.args, rs);
      assert SimpleAs(PrintExec(t), t, c.args, rs);
    } else {
      PrintedLine(c);
      RedirsMixed(rs);
      assert BlockAs(PrintExec(t), t, PrintLine(c), RedirToks(rs), c, rs);
    }
  }

  lemma {:induction false} PrintedPipe(t: Cmd<string>)
    requires Legal(t)
    ensures PipeIs(PrintPipe(t), t)
    decreases t, if t.List? || t.Back? then 5 else 1
  {
    hide ExecIs, PrintExec;
    if t.Pipe? {
      PrintedExec(t.left);
      PrintedPipe(t.right);
      assert PipeAs(PrintPipe(t), t, PrintExec(t.left), PrintPipe(t.right));
    } else {
      PrintedExec(t);
    }
  }

  lemma {:induction false} PrintedBack(t: Cmd<string>)
    requires Legal(t)
    ensures BackIs(PrintBack(t), t)
    decreases t, if t.List? then 6 else 2
  {
    hide PipeIs, PrintPipe;
    if t.Back? {
      PrintedBack(t.job);
      var ts := PrintBack(t);
      assert ts[..|ts| - 1] == PrintBack(t.job);
    } else {
      PrintedPipe(t);
    }
  }

  /** The grammar derives every printed tree. */
  lemma {:induction false} PrintedLine(t: Cmd<string>)
    requires Legal(t)
    ensures LineIs(PrintLine(t), t)
    decreases t, 3
  {
    hide BackIs, PrintBack;
    if t.List? {
      PrintedBack(t.first);
      PrintedLine(t.second);
      assert LineAs(PrintLine(t), t, PrintBack(t.first), PrintLine(t.second));
    } else {
      PrintedBack(t);
    }
  }

  // ---------------------------------------------------------------- rendered text

  predicate LegalTok(p: PTok) {
    match p
    case W(w) => LegalWord(w)
    case S(c) => Symbol(c)
    case A => true
  }

  ghost predicate AllLegal(ts: seq<PTok>) {
    forall k :: 0 <= k < |ts| ==> LegalTok(ts[k])
  }

  /** A legal token followed by a blank is read as that token. */
  lemma TokenReads(s: string, i: nat, p: PTok)
    requires LegalTok(p) && i + |TokText(p)| < |s| && s[i..i + |TokText(p)|] == TokText(p) && s[i + |TokText(p)|] == ' '
    ensures var t := GetToken(s, i);
      !t.tok.End? && TokOf(s, t) == p && t.next == Skip(s, i + |TokText(p)| + 1)
  {
    var w := TokText(p);
    var e := i + |w|;
    assert s[i] == w[0];
    if p.W? {
      forall k | i <= k < e ensures WordChar(s[k]) {
        assert s[k] == s[i..e][k - i];
      }
      WordEndIs(s, i, e);
    } else if p.A? {
      assert s[i + 1] == s[i..e][1];
    }
    assert Skip(s, e) == Skip(s, e + 1);
  }

  lemma {:induction false} WordEndIs(s: string, i: nat, e: nat)
    requires i <= e < |s| && (forall k :: i <= k < e ==> WordChar(s[k])) && !WordChar(s[e])
    ensures WordEnd(s, i) == e
    decreases e - i
  {
    if i < e {
      WordEndIs(s, i + 1, e);
    }
  }

  lemma SplitAt(s: string, i: nat, w: string, rest: string)
    requires i <= |s| && s[i..] == w + " " + rest
    ensures i + |w| < |s| && s[i..i + |w|] == w && s[i + |w|] == ' ' && s[i + |w| + 1..] == rest
  {
    var e := i + |w|;
    assert s[i..][..|w|] == w && s[i..][|w|] == ' ' && s[i..][|w| + 1..] == rest;
    assert s[i..e] == s[i..][..|w|];
    assert s[e + 1..] == s[i..][|w| + 1..];
  }

  lemma RenderOne(ts: seq<PTok>)
    requires ts != []
    ensures Render(ts) == TokText(ts[0]) + " " + Render(ts[1..])
  {
  }

  lemma NoToks(s: string)
    ensures Toks(s, |s|) == []
  {
  }

  lemma OneTok(s: string, i: nat)
    requires i <= |s| && !GetToken(s, i).tok.End?
    ensures Toks(s, i) == [TokOf(s, GetToken(s, i))] + Toks(s, GetToken(s, i).next)
  {
  }

  /** A rendered list of tokens is read as those tokens. */
  lemma {:induction false} RenderReads(s: string, i: nat, ts: seq<PTok>)
    requires AllLegal(ts) && i <= |s| && s[i..] == Render(ts)
    ensures Toks(s, i) == ts
    decreases |ts|
  {
    hide Render, Toks, TokOf, GetToken, Skip, LegalTok, TokText;
    if ts == [] {
      assert Render([]) == [] by { RenderNone(); }
      NoToks(s);
    } else {
      var w := TokText(ts[0]);
      RenderOne(ts);
      SplitAt(s, i, w, Render(ts[1..]));
      TokenReads(s, i, ts[0]);
      RenderReads(s, i + |w| + 1, ts[1..]);
      SkipToks(s, i + |w| + 1);
      OneTok(s, i);
    }
  }

  lemma RenderNone()
    ensures Render([]) == []
  {
  }

  lemma {:induction false} WordsLegal(ws: seq<string>)
    requires forall k :: 0 <= k < |ws| ==> LegalWord(ws[k])
    ensures AllLegal(Words(ws))
  {
    if ws != [] {
      WordsLegal(ws[1..]);
    }
  }

  lemma {:induction false} RedirsLegal(rs: seq<Redirect<string>>)
    requires forall k :: 0 <= k < |rs| ==> LegalWord(rs[k].file)
    ensures AllLegal(RedirToks(rs))
  {
    if rs != [] {
      RedirsLegal(rs[1..]);
    }
  }

  lemma {:induction false} CoreRedirsLegal(t: Cmd<string>)
    requires Legal(t)
    ensures Legal(Core(t)) && forall k :: 0 <= k < |Redirs(t)| ==> LegalWord(Redirs(t)[k].file)
  {
    if t.Redir? {
      CoreRedirsLegal(t.cmd);
    }
  }

  lemma {:induction false} ExecLegal(t: Cmd<string>)
    requires Legal(t)
    ensures AllLegal(PrintExec(t))
    decreases t, if t.Exec? || t.Redir? then 0 else 4
  {
    CoreRedirsLegal(t);
    RedirsLegal(Redirs(t));
    if Core(t).Exec? {
      WordsLegal(Core(t).args);
    } else {
      LineLegal(Core(t));
    }
  }

  lemma {:induction false} PipeLegal(t: Cmd<string>)
    requires Legal(t)
    ensures AllLegal(PrintPipe(t))
    decreases t, if t.List? || t.Back? then 5 else 1
  {
    if t.Pipe? {
      ExecLegal(t.left);
      PipeLegal(t.right);
    } else {
      ExecLegal(t);
    }
  }

  lemma {:induction false} BackLegal(t: Cmd<string>)
    requires Legal(t)
    ensures AllLegal(PrintBack(t))
    decreases t, if t.List? then 6 else 2
  {
    if t.Back? {
      BackLegal(t.job);
    } else {
      PipeLegal(t);
    }
  }

  lemma {:induction false} LineLegal(t: Cmd<string>)
    requires Legal(t)
    ensures AllLegal(PrintLine(t))
    decreases t, 3
  {
    if t.List? {
      BackLegal(t.first);
      LineLegal(t.second);
    } else {
      BackLegal(t);
    }
  }

  lemma {:induction false} RenderNulFree(ts: seq<PTok>)
    requires AllLegal(ts)
    ensures forall k :: 0 <= k < |Render(ts)| ==> Render(ts)[k] != '\0'
  {
    if ts != [] {
      RenderNulFree(ts[1..]);
    }
  }

  /** Parsing inverts printing, for every tree of legal words with at most 9 arguments a command. */
  lemma ParsePrinted(t: Cmd<string>)
    requires Legal(t)
    ensures var s := Render(PrintLine(t)); ParseCmd(s).Ok? && Text(s, ParseCmd(s).v) == t
  {
    hide LineIs, ParseCmd, PrintLine, Render, AllLegal, Legal, Text;
    var ts := PrintLine(t);
    var s := Render(ts);
    LineLegal(t);
    PrintedLine(t);
    assert s[0..] == s;
    RenderReads(s, 0, ts);
    ParsesIff(s, t);
  }

  /** A line that appends is parsed as one that writes: the two signs lead to one tree. */
  lemma AppendIsWrite(w: string, f: string)
    requires LegalWord(w) && LegalWord(f)
    ensures var s := Render([W(w), A, W(f)]);
      ParseCmd(s).Ok? && Text(s, ParseCmd(s).v) == Redir(Exec([w]), f, true)
  {
    var ts, t, rs := [W(w), A, W(f)], Redir(Exec([w]), f, true), [Redirect(f, true)];
    assert Wrap(Exec([w]), rs) == Wrap(t, []) == t;
    assert ts[1..] == [A, W(f)] && ts[1..][2..] == [];
    var ws := [w];
    assert rs[1..] == [] && ws[1..] == [];
    assert Mixed(ts[1..], ws[1..], rs);
    assert SimpleAs(ts, t, ws, rs);
    hide LineIs, ParseCmd, Text, Render;
    assert LineIs(ts, t) by { SimpleLine(ts, t, ws, rs); }
    var s := Render(ts);
    assert s[0..] == s;
    RenderReads(s, 0, ts);
    ParsesIff(s, t);
  }

  lemma SimpleLine(ts: seq<PTok>, t: Cmd<string>, ws: seq<string>, rs: seq<Redirect<string>>)
    requires SimpleAs(ts, t, ws, rs)
    ensures LineIs(ts, t)
  {
    assert ExecIs(ts, t);
  }
}
