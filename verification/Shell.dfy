/** The shell's parser as the code runs it, and the terminators it writes into the line. */
module Shell {
  import opened ShellSyntax
  import Grammar = ShellGrammar
  import RoundTrip = ShellRoundTrip
  import opened Wrappers

  /** A recursive-descent parser that moves a pointer through the line; None is a panic. */
  class Parser {
    const s: string
    var ps: nat

    constructor (s: string)
      ensures this.s == s && ps == 0
    {
      this.s := s;
      ps := 0;
    }

    method SkipWhite()
      requires ps <= |s|
      modifies this`ps
      ensures ps == Skip(s, old(ps))
    {
      while ps < |s| && White(s[ps])
        invariant old(ps) <= ps <= |s| && Skip(s, old(ps)) == Skip(s, ps)
      {
        ps := ps + 1;
      }
    }

    method Gettoken() returns (tok: Tok, q: nat, eq: nat)
      requires ps <= |s|
      modifies this`ps
      ensures Token(tok, q, eq, ps) == GetToken(s, old(ps))
    {
      SkipWhite();
      q := ps;
      if ps == |s| {
        tok := End;
      } else if s[ps] == '|' || s[ps] == '(' || s[ps] == ')' || s[ps] == ';' || s[ps] == '&' || s[ps] == '<' {
        tok := Sym(s[ps]);
        ps := ps + 1;
      } else if s[ps] == '>' {
        tok := Sym('>');
        ps := ps + 1;
        if ps < |s| && s[ps] == '>' {
          tok := Append;
          ps := ps + 1;
        }
      } else {
        tok := Word;
        while ps < |s| && !White(s[ps]) && !Symbol(s[ps])
          invariant q <= ps <= |s| && WordEnd(s, q) == WordEnd(s, ps)
        {
          ps := ps + 1;
        }
      }
      eq := ps;
      SkipWhite();
    }

    method PeekFor(toks: string) returns (r: bool)
      requires ps <= |s|
      modifies this`ps
      ensures ps == Skip(s, old(ps)) && r == Peek(s, old(ps), toks)
    {
      SkipWhite();
      r := ps < |s| && s[ps] in toks;
    }

    method Parseredirs(rs0: seq<Redirect<Span>>) returns (r: Option<seq<Redirect<Span>>>)
      requires ps <= |s|
      modifies this`ps
      ensures Same(r, ps, ParseRedirs(s, old(ps), rs0)) && (r.Some? ==> old(ps) <= ps <= |s|)
    {
      var rs := rs0;
      var more := PeekFor("<>");
      while more
        invariant old(ps) <= ps <= |s| && ps == Skip(s, ps) && more == Peek(s, ps, "<>")
        invariant ParseRedirs(s, old(ps), rs0) == ParseRedirs(s, ps, rs)
        decreases |s| - ps
      {
        var tok, q, eq := Gettoken();
        ghost var at := ps;
        var f, fq, feq := Gettoken();
        if f != Word {
          return None;
        }
        rs := rs + [Redirect(Span(fq, feq), tok != Sym('<'))];
        ghost var here := ps;
        more := PeekFor("<>");
        PeekAgain(s, here, "<>", rs);
      }
      r := Some(rs);
    }

    method Parseexec() returns (r: Option<Cmd<Span>>)
      requires ps <= |s|
      modifies this`ps
      ensures Same(r, ps, ParseExec(s, old(ps))) && (r.Some? ==> old(ps) <= ps <= |s|)
      decreases |s| - ps, 1
    {
      var block := PeekFor("(");
      if block {
        r := Parseblock();
        return;
      }
      var first := Parseredirs([]);
      if first.None? {
        return None;
      }
      var simple := Parseargs(first.value);
      if simple.None? {
        return None;
      }
      r := Some(Wrap(Exec(simple.value.args), simple.value.rs));
    }

    /** The loop of parseexec. */
    method Parseargs(rs0: seq<Redirect<Span>>) returns (r: Option<Simple<Span>>)
      requires ps <= |s|
      modifies this`ps
      ensures Same(r, ps, ParseArgs(s, old(ps), Simple([], rs0))) && (r.Some? ==> old(ps) <= ps <= |s|)
    {
      var c := Simple([], rs0);
      var done := PeekFor("|)&;");
      ArgsAgain(s, old(ps), c);
      while !done
        invariant old(ps) <= ps <= |s| && ps == Skip(s, ps) && done == Peek(s, ps, "|)&;")
        invariant ParseArgs(s, old(ps), Simple([], rs0)) == ParseArgs(s, ps, c)
        decreases |s| - ps
      {
        var tok, q, eq := Gettoken();
        if tok == End {
          return Some(c);
        }
        if tok != Word || |c.args| + 1 >= MAXARGS {
          return None;
        }
        var rs := Parseredirs(c.rs);
        if rs.None? {
          return None;
        }
        c := Simple(c.args + [Span(q, eq)], rs.value);
        ghost var here := ps;
        done := PeekFor("|)&;");
        ArgsAgain(s, here, c);
      }
      r := Some(c);
    }

    method Parseblock() returns (r: Option<Cmd<Span>>)
      requires ps <= |s|
      modifies this`ps
      ensures Same(r, ps, ParseBlock(s, old(ps))) && (r.Some? ==> old(ps) <= ps <= |s|)
      decreases |s| - ps, 0
    {
      var open := PeekFor("(");
      if !open {
        return None;
      }
      var tok, q, eq := Gettoken();
      var c := Parseline();
      if c.None? {
        return None;
      }
      var closed := PeekFor(")");
      if !closed {
        return None;
      }
      tok, q, eq := Gettoken();
      var rs := Parseredirs([]);
      if rs.None? {
        return None;
      }
      r := Some(Wrap(c.value, rs.value));
    }

    method Parsepipe() returns (r: Option<Cmd<Span>>)
      requires ps <= |s|
      modifies this`ps
      ensures Same(r, ps, ParsePipe(s, old(ps))) && (r.Some? ==> old(ps) <= ps <= |s|)
      decreases |s| - ps, 2
    {
      r := Parseexec();
      if r.None? {
        return;
      }
      var more := PeekFor("|");
      if more {
        var tok, q, eq := Gettoken();
        var right := Parsepipe();
        if right.None? {
          return None;
        }
        r := Some(Pipe(r.value, right.value));
      }
    }

    method Parseline() returns (r: Option<Cmd<Span>>)
      requires ps <= |s|
      modifies this`ps
      ensures Same(r, ps, ParseLine(s, old(ps))) && (r.Some? ==> old(ps) <= ps <= |s|)
      decreases |s| - ps, 3
    {
      r := Parsepipe();
      if r.None? {
        return;
      }
      var cmd := Parsebacks(r.value);
      var more := PeekFor(";");
      if more {
        var tok, q, eq := Gettoken();
        var second := Parseline();
        if second.None? {
          return None;
        }
        return Some(List(cmd, second.value));
      }
      r := Some(cmd);
    }

    /** The first loop of parseline. */
    method Parsebacks(cmd0: Cmd<Span>) returns (cmd: Cmd<Span>)
      requires ps <= |s|
      modifies this`ps
      ensures Ok(cmd, ps) == ParseBacks(s, old(ps), cmd0) && old(ps) <= ps <= |s|
    {
      cmd := cmd0;
      var more := PeekFor("&");
      BacksAgain(s, old(ps), cmd);
      while more
        invariant old(ps) <= ps <= |s| && ps == Skip(s, ps) && more == Peek(s, ps, "&")
        invariant ParseBacks(s, old(ps), cmd0) == ParseBacks(s, ps, cmd)
        decreases |s| - ps
      {
        var tok, q, eq := Gettoken();
        cmd := Back(cmd);
        ghost var here := ps;
        more := PeekFor("&");
        BacksAgain(s, here, cmd);
      }
    }

    /** parsecmd, up to the terminators. */
    method Parsecmd() returns (r: Option<Cmd<Span>>)
      requires ps == 0
      modifies this`ps
      ensures match ParseCmd(s) case Fail => r.None? case Ok(v, at) => r == Some(v)
      ensures r.Some? ==> Grammar.LineIs(Grammar.Toks(s, 0), Text(s, r.value))
      ensures r.None? ==> forall t :: !Grammar.LineIs(Grammar.Toks(s, 0), t)
    {
      forall t ensures ParseCmd(s).Ok? && Text(s, ParseCmd(s).v) == t <==> Grammar.LineIs(Grammar.Toks(s, 0), t) {
        Grammar.ParsesIff(s, t);
      }
      hide Grammar.LineIs, Grammar.Toks;
      r := Parseline();
      if r.None? {
        return;
      }
      var none := PeekFor("");
      if ps != |s| {
        return None;
      }
    }
  }

  lemma ArgsAgain(s: string, i: nat, c: Simple<Span>)
    requires i <= |s|
    ensures Skip(s, Skip(s, i)) == Skip(s, i) && Peek(s, Skip(s, i), "|)&;") == Peek(s, i, "|)&;")
    ensures ParseArgs(s, Skip(s, i), c) == ParseArgs(s, i, c)
  {
    SkipTwice(s, i);
  }

  lemma BacksAgain(s: string, i: nat, c: Cmd<Span>)
    requires i <= |s|
    ensures Skip(s, Skip(s, i)) == Skip(s, i) && Peek(s, Skip(s, i), "&") == Peek(s, i, "&")
    ensures ParseBacks(s, Skip(s, i), c) == ParseBacks(s, i, c)
  {
    SkipTwice(s, i);
  }

  /** A method's result and the place it reached are those of the parsing function. */
  ghost predicate Same<T>(r: Option<T>, ps: nat, f: Res<T>) {
    match f
    case Fail => r.None?
    case Ok(v, at) => r == Some(v) && ps == at
  }

  lemma PeekAgain(s: string, i: nat, toks: string, rs: seq<Redirect<Span>>)
    requires i <= |s|
    ensures Skip(s, Skip(s, i)) == Skip(s, i) && Peek(s, Skip(s, i), toks) == Peek(s, i, toks)
    ensures ParseRedirs(s, Skip(s, i), rs) == ParseRedirs(s, i, rs)
  {
    SkipTwice(s, i);
  }

  // ---------------------------------------------------------------- terminators

  /** Every word of the command is a whole word of the line. */
  ghost predicate AllWords(s: string, c: Cmd<Span>) {
    match c
    case Exec(args) => forall k :: 0 <= k < |args| ==> IsWord(s, args[k])
    case Redir(d, f, out) => AllWords(s, d) && IsWord(s, f)
    case Pipe(l, r) => AllWords(s, l) && AllWords(s, r)
    case List(l, r) => AllWords(s, l) && AllWords(s, r)
    case Back(d) => AllWords(s, d)
  }

  ghost predicate RedirWords(s: string, rs: seq<Redirect<Span>>) {
    forall k :: 0 <= k < |rs| ==> IsWord(s, rs[k].file)
  }

  ghost predicate ArgWords(s: string, ws: seq<Span>) {
    forall k :: 0 <= k < |ws| ==> IsWord(s, ws[k])
  }

  lemma {:induction false} RedirsAreWords(s: string, i: nat, rs: seq<Redirect<Span>>)
    requires i <= |s| && RedirWords(s, rs) && ParseRedirs(s, i, rs).Ok?
    ensures RedirWords(s, ParseRedirs(s, i, rs).v)
    decreases |s| - i
  {
    hide IsWord, Skip;
    if Peek(s, i, "<>") {
      var t := GetToken(s, Skip(s, i));
      var f := GetToken(s, t.next);
      RedirsAreWords(s, f.next, rs + [Redirect(Span(f.q, f.eq), t.tok != Sym('<'))]);
    }
  }

  lemma {:induction false} ArgsAreWords(s: string, i: nat, c: Simple<Span>)
    requires i <= |s| && RedirWords(s, c.rs) && ArgWords(s, c.args) && ParseArgs(s, i, c).Ok?
    ensures RedirWords(s, ParseArgs(s, i, c).v.rs) && ArgWords(s, ParseArgs(s, i, c).v.args)
    decreases |s| - i
  {
    hide IsWord, Skip;
    var t := GetToken(s, Skip(s, i));
    if !Peek(s, i, "|)&;") && !t.tok.End? {
      RedirsAreWords(s, t.next, c.rs);
      var p := ParseRedirs(s, t.next, c.rs);
      ArgsAreWords(s, p.at, Simple(c.args + [Span(t.q, t.eq)], p.v));
    }
  }

  lemma {:induction false} WrapWords(s: string, c: Cmd<Span>, rs: seq<Redirect<Span>>)
    requires AllWords(s, c) && RedirWords(s, rs)
    ensures AllWords(s, Wrap(c, rs))
    decreases |rs|
  {
    if rs != [] {
      WrapWords(s, Redir(c, rs[0].file, rs[0].out), rs[1..]);
    }
  }

  lemma {:induction false} ExecWords(s: string, i: nat)
    requires i <= |s| && ParseExec(s, i).Ok?
    ensures AllWords(s, ParseExec(s, i).v)
    decreases |s| - i, 1
  {
    hide IsWord, Skip, ParseRedirs, ParseArgs, ParseBlock;
    if Peek(s, i, "(") {
      BlockWords(s, Skip(s, i));
    } else {
      RedirsAreWords(s, Skip(s, i), []);
      var p := ParseRedirs(s, Skip(s, i), []);
      ArgsAreWords(s, p.at, Simple([], p.v));
      var a := ParseArgs(s, p.at, Simple([], p.v));
      WrapWords(s, Exec(a.v.args), a.v.rs);
    }
  }

  lemma {:induction false} BlockWords(s: string, i: nat)
    requires i <= |s| && ParseBlock(s, i).Ok?
    ensures AllWords(s, ParseBlock(s, i).v)
    decreases |s| - i, 0
  {
    hide IsWord, Skip, ParseRedirs, ParseLine;
    var a := GetToken(s, Skip(s, i)).next;
    LineWords(s, a);
    var r := ParseLine(s, a);
    var b := GetToken(s, Skip(s, r.at)).next;
    RedirsAreWords(s, b, []);
    WrapWords(s, r.v, ParseRedirs(s, b, []).v);
  }

  lemma {:induction false} PipeWords(s: string, i: nat)
    requires i <= |s| && ParsePipe(s, i).Ok?
    ensures AllWords(s, ParsePipe(s, i).v)
    decreases |s| - i, 2
  {
    hide IsWord, Skip, ParseExec;
    ExecWords(s, i);
    var r := ParseExec(s, i);
    if Peek(s, r.at, "|") {
      PipeWords(s, GetToken(s, Skip(s, r.at)).next);
    }
  }

  lemma {:induction false} BackWords(s: string, i: nat, c: Cmd<Span>)
    requires i <= |s| && AllWords(s, c)
    ensures AllWords(s, ParseBacks(s, i, c).v)
    decreases |s| - i
  {
    hide IsWord, Skip;
    if Peek(s, i, "&") {
      BackWords(s, GetToken(s, Skip(s, i)).next, Back(c));
    }
  }

  lemma {:induction false} LineWords(s: string, i: nat)
    requires i <= |s| && ParseLine(s, i).Ok?
    ensures AllWords(s, ParseLine(s, i).v)
    decreases |s| - i, 3
  {
    hide IsWord, Skip, ParsePipe, ParseBacks;
    PipeWords(s, i);
    var p := ParsePipe(s, i);
    BackWords(s, p.at, p.v);
    var b := ParseBacks(s, p.at, p.v);
    if Peek(s, b.at, ";") {
      LineWords(s, GetToken(s, Skip(s, b.at)).next);
    }
  }

  /** The words of a command. */
  function Spans(c: Cmd<Span>): (ws: set<Span>) {
    match c
    case Exec(args) => set k | 0 <= k < |args| :: args[k]
    case Redir(d, f, out) => Spans(d) + {f}
    case Pipe(l, r) => Spans(l) + Spans(r)
    case List(l, r) => Spans(l) + Spans(r)
    case Back(d) => Spans(d)
  }

  lemma {:induction false} SpansAreWords(s: string, c: Cmd<Span>, w: Span)
    requires AllWords(s, c) && w in Spans(c)
    ensures IsWord(s, w)
  {
    hide IsWord;
    match c
    case Exec(args) =>
    case Redir(d, f, out) => if w in Spans(d) { SpansAreWords(s, d, w); }
    case Pipe(l, r) => if w in Spans(l) { SpansAreWords(s, l, w); } else { SpansAreWords(s, r, w); }
    case List(l, r) => if w in Spans(l) { SpansAreWords(s, l, w); } else { SpansAreWords(s, r, w); }
    case Back(d) => SpansAreWords(s, d, w);
  }

  /** now is before with NUL behind every word of c, and unchanged elsewhere. */
  ghost predicate Terminated(before: seq<char>, now: seq<char>, c: Cmd<Span>) {
    && |now| == |before|
    && (forall w :: w in Spans(c) && w.eq < |now| ==> now[w.eq] == '\0')
    && (forall p :: 0 <= p < |now| && (forall w :: w in Spans(c) ==> w.eq != p) ==> now[p] == before[p])
  }

  ghost predicate Inside(c: Cmd<Span>, n: nat) {
    forall w :: w in Spans(c) ==> w.eq < n
  }

  method Nulterminate(cmd: Cmd<Span>, buf: array<char>)
    requires Inside(cmd, buf.Length)
    modifies buf
    ensures Terminated(old(buf[..]), buf[..], cmd)
    decreases cmd
  {
    match cmd
    case Exec(args) =>
      var i := 0;
      while i < |args|
        invariant 0 <= i <= |args|
        invariant forall k :: 0 <= k < i ==> args[k].eq < buf.Length && buf[args[k].eq] == '\0'
        invariant forall p :: 0 <= p < buf.Length && (forall w :: w in Spans(cmd) ==> w.eq != p) ==>
                    buf[p] == old(buf[p])
      {
        assert args[i] in Spans(cmd);
        buf[args[i].eq] := '\0';
        i := i + 1;
      }
    case Redir(d, f, out) =>
      assert f in Spans(cmd);
      Nulterminate(d, buf);
      buf[f.eq] := '\0';
    case Pipe(l, r) =>
      NulterminateBoth(cmd, l, r, buf);
    case List(l, r) =>
      NulterminateBoth(cmd, l, r, buf);
    case Back(d) =>
      Nulterminate(d, buf);
  }

  method NulterminateBoth(cmd: Cmd<Span>, l: Cmd<Span>, r: Cmd<Span>, buf: array<char>)
    requires Spans(cmd) == Spans(l) + Spans(r) && l < cmd && r < cmd && Inside(cmd, buf.Length)
    modifies buf
    ensures Terminated(old(buf[..]), buf[..], cmd)
    decreases cmd, 0
  {
    Nulterminate(l, buf);
    ghost var mid := buf[..];
    Nulterminate(r, buf);
    BothTerminated(old(buf[..]), mid, buf[..], cmd, l, r);
  }

  lemma BothTerminated(a: seq<char>, b: seq<char>, d: seq<char>, cmd: Cmd<Span>, l: Cmd<Span>, r: Cmd<Span>)
    requires Spans(cmd) == Spans(l) + Spans(r) && Terminated(a, b, l) && Terminated(b, d, r)
    ensures Terminated(a, d, cmd)
  {
    forall w | w in Spans(cmd) && w.eq < |d| ensures d[w.eq] == '\0' {
      if w !in Spans(r) {
        assert b[w.eq] == '\0';
        if x :| x in Spans(r) && x.eq == w.eq {
          assert d[x.eq] == '\0';
        }
      }
    }
  }

  /** The C string at place i of a buffer. */
  function CString(b: seq<char>, i: nat): (r: string)
    decreases |b| - i
  {
    if i >= |b| || b[i] == '\0' then [] else [b[i]] + CString(b, i + 1)
  }

  lemma {:induction false} CStringIs(b: seq<char>, i: nat, e: nat)
    requires i <= e < |b| && b[e] == '\0' && forall k :: i <= k < e ==> b[k] != '\0'
    ensures CString(b, i) == b[i..e]
    decreases e - i
  {
    if i < e {
      CStringIs(b, i + 1, e);
    }
  }

  /** After parsing and terminating, every word is a C string of its own: none is cut or runs on. */
  lemma WordsSurvive(s: string, b: seq<char>, c: Cmd<Span>, w: Span)
    requires ParseCmd(s).Ok? && c == ParseCmd(s).v && w in Spans(c)
    requires (forall k :: 0 <= k < |s| ==> s[k] != '\0') && Terminated(s + ['\0'], b, c)
    ensures CString(b, w.q) == SpanText(s, w)
  {
    LineWords(s, 0);
    SpansAreWords(s, c, w);
    forall k | w.q <= k < w.eq ensures b[k] == s[k] {
      forall x | x in Spans(c) ensures x.eq != k {
        SpansAreWords(s, c, x);
      }
      assert (s + ['\0'])[k] == s[k];
    }
    CStringIs(b, w.q, w.eq);
    assert b[w.q..w.eq] == s[w.q..w.eq];
  }

  /** parsecmd: the tree, and a buffer in which every word of it ends with NUL. */
  method ParseAndTerminate(buf: array<char>, s: string) returns (r: Option<Cmd<Span>>)
    requires buf[..] == s + ['\0'] && forall k :: 0 <= k < |s| ==> s[k] != '\0'
    modifies buf
    ensures match ParseCmd(s) case Fail => r.None? case Ok(v, at) => r == Some(v)
    ensures r.Some? ==> forall w :: w in Spans(r.value) ==> CString(buf[..], w.q) == SpanText(s, w)
  {
    var p := new Parser(s);
    r := p.Parsecmd();
    if r.None? {
      return;
    }
    assert Inside(r.value, buf.Length) by {
      LineWords(s, 0);
      forall w | w in Spans(r.value) ensures w.eq < buf.Length {
        SpansAreWords(s, r.value, w);
        assert buf.Length == |buf[..]|;
      }
    }
    Nulterminate(r.value, buf);
    forall w | w in Spans(r.value) ensures CString(buf[..], w.q) == SpanText(s, w) {
      WordsSurvive(s, buf[..], r.value, w);
    }
  }

  /** The command with its words read off the buffer as C strings. */
  function Strings(b: seq<char>, c: Cmd<Span>): (t: Cmd<string>) {
    match c
    case Exec(args) => Exec(seq(|args|, k requires 0 <= k < |args| => CString(b, args[k].q)))
    case Redir(d, f, out) => Redir(Strings(b, d), CString(b, f.q), out)
    case Pipe(l, r) => Pipe(Strings(b, l), Strings(b, r))
    case List(l, r) => List(Strings(b, l), Strings(b, r))
    case Back(d) => Back(Strings(b, d))
  }

  lemma {:induction false} StringsAreText(s: string, b: seq<char>, c: Cmd<Span>)
    requires forall w :: w in Spans(c) ==> CString(b, w.q) == SpanText(s, w)
    ensures Strings(b, c) == Text(s, c)
  {
    hide CString, SpanText;
    match c
    case Exec(args) =>
      forall k | 0 <= k < |args| ensures CString(b, args[k].q) == SpanText(s, args[k]) {
        assert args[k] in Spans(c);
      }
    case Redir(d, f, out) => StringsAreText(s, b, d);
    case Pipe(l, r) =>
      StringsAreText(s, b, l);
      StringsAreText(s, b, r);
    case List(l, r) =>
      StringsAreText(s, b, l);
      StringsAreText(s, b, r);
    case Back(d) => StringsAreText(s, b, d);
  }

  /** Typing a printed command tree: the parser's tree, its words C strings in the buffer, is that tree. */
  method ParseTyped(buf: array<char>, t: Cmd<string>) returns (r: Option<Cmd<Span>>)
    requires Legal(t) && buf[..] == Render(PrintLine(t)) + ['\0']
    modifies buf
    ensures r.Some? && Strings(buf[..], r.value) == t
  {
    hide Legal, Render, PrintLine, ParseCmd, Spans, CString, Strings;
    ghost var s := Render(PrintLine(t));
    RoundTrip.LineLegal(t);
    RoundTrip.RenderNulFree(PrintLine(t));
    RoundTrip.ParsePrinted(t);
    r := ParseAndTerminate(buf, buf[..buf.Length - 1]);
    StringsAreText(s, buf[..], r.value);
  }
}
