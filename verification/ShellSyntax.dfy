/**
 The shell's command language: how a line is cut into tokens and parsed into a command tree,
 and how a tree is printed so that parsing gives it back.
 */
module ShellSyntax {

  /** A command over words, which are either strings or places in the line. */
  datatype Cmd<T> =
    | Exec(args: seq<T>)
    | Redir(cmd: Cmd<T>, file: T, out: bool)  // out: write to descriptor 1, else read to 0
    | Pipe(left: Cmd<T>, right: Cmd<T>)
    | List(first: Cmd<T>, second: Cmd<T>)
    | Back(job: Cmd<T>)

  /** The part s[q..eq] of a line. */
  datatype Span = Span(q: nat, eq: nat)

  datatype Redirect<T> = Redirect(file: T, out: bool)

  const MAXARGS := 10

  predicate White(c: char) {
    c == ' ' || c == '\t' || c == '\r' || c == '\n' || c == '\U{0B}'
  }

  predicate Symbol(c: char) {
    c == '<' || c == '|' || c == '>' || c == '&' || c == ';' || c == '(' || c == ')'
  }

  predicate WordChar(c: char) {
    !White(c) && !Symbol(c)
  }

  // ---------------------------------------------------------------- tokens

  /** Past the white space at i. */
  function Skip(s: string, i: nat): (j: nat)
    requires i <= |s|
    ensures i <= j <= |s| && (j == |s| || !White(s[j])) && (i < |s| && !White(s[i]) ==> j == i)
    decreases |s| - i
  {
    if i < |s| && White(s[i]) then Skip(s, i + 1) else i
  }

  lemma {:induction false} SkipTwice(s: string, i: nat)
    requires i <= |s|
    ensures Skip(s, Skip(s, i)) == Skip(s, i)
    decreases |s| - i
  {
    if i < |s| && White(s[i]) {
      SkipTwice(s, i + 1);
    }
  }

  /** Past the word characters at i. */
  function WordEnd(s: string, i: nat): (j: nat)
    requires i <= |s|
    ensures i <= j <= |s| && (j == |s| || !WordChar(s[j])) && (forall k :: i <= k < j ==> WordChar(s[k]))
    ensures i < |s| && WordChar(s[i]) ==> i < j
    decreases |s| - i
  {
    if i < |s| && WordChar(s[i]) then WordEnd(s, i + 1) else i
  }

  datatype Tok = End | Sym(c: char) | Append | Word

  /** A token, where it lies, and the place after it and the white space behind it. */
  datatype Token = Token(tok: Tok, q: nat, eq: nat, next: nat)

  /** gettoken */
  function GetToken(s: string, i: nat): (t: Token)
    requires i <= |s|
    ensures i <= t.q <= t.eq <= t.next <= |s| && t.q == Skip(s, i) && t.next == Skip(s, t.eq)
    ensures t.tok.End? <==> t.q == |s|
    ensures !t.tok.End? ==> i < t.next
    ensures t.tok.Word? <==> t.q < |s| && WordChar(s[t.q])
    ensures t.tok.Word? ==> IsWord(s, Span(t.q, t.eq))
    ensures t.tok.Append? <==> t.q + 1 < |s| && s[t.q] == s[t.q + 1] == '>'
    ensures t.tok.Append? ==> t.eq == t.q + 2
    ensures t.tok.Sym? ==> t.eq == t.q + 1 && Symbol(t.tok.c) && t.tok.c == s[t.q]
  {
    var q := Skip(s, i);
    if q == |s| then Token(End, q, q, Skip(s, q))
    else if s[q] == '>' && q + 1 < |s| && s[q + 1] == '>' then Token(Append, q, q + 2, Skip(s, q + 2))
    else if Symbol(s[q]) then Token(Sym(s[q]), q, q + 1, Skip(s, q + 1))
    else Token(Word, q, WordEnd(s, q), Skip(s, WordEnd(s, q)))
  }

  /** A whole word of the line: word characters, and none right behind. */
  ghost predicate IsWord(s: string, w: Span) {
    && w.q < w.eq <= |s|
    && (forall k :: w.q <= k < w.eq ==> WordChar(s[k]))
    && (w.eq == |s| || !WordChar(s[w.eq]))
  }

  /** peek: the next character after white space is one of toks. */
  predicate Peek(s: string, i: nat, toks: string)
    requires i <= |s|
  {
    var j := Skip(s, i);
    j < |s| && s[j] in toks
  }

  // ---------------------------------------------------------------- the parser

  /** A panic, or a value and the place reached. */
  datatype Res<T> = Fail | Ok(v: T, at: nat)

  /** parseredirs, collecting the redirections. */
  function ParseRedirs(s: string, i: nat, rs: seq<Redirect<Span>>): (r: Res<seq<Redirect<Span>>>)
    requires i <= |s|
    ensures r.Ok? ==> i <= r.at <= |s|
    decreases |s| - i
  {
    if Peek(s, i, "<>") then
      var t := GetToken(s, Skip(s, i));
      var f := GetToken(s, t.next);
      if !f.tok.Word? then Fail
      else ParseRedirs(s, f.next, rs + [Redirect(Span(f.q, f.eq), t.tok != Sym('<'))])
    else Ok(rs, Skip(s, i))
  }

  /** The arguments and redirections of a simple command. */
  datatype Simple<T> = Simple(args: seq<T>, rs: seq<Redirect<T>>)

  /** The loop of parseexec. */
  function ParseArgs(s: string, i: nat, c: Simple<Span>): (r: Res<Simple<Span>>)
    requires i <= |s|
    ensures r.Ok? ==> i <= r.at <= |s|
    decreases |s| - i
  {
    if Peek(s, i, "|)&;") then Ok(c, Skip(s, i))
    else
      var t := GetToken(s, Skip(s, i));
      if t.tok.End? then Ok(c, t.next)
      else if !t.tok.Word? || |c.args| + 1 >= MAXARGS then Fail
      else
        match ParseRedirs(s, t.next, c.rs)
        case Fail => Fail
        case Ok(rs, j) => ParseArgs(s, j, Simple(c.args + [Span(t.q, t.eq)], rs))
  }

  /** A command with redirections around it, the first one innermost. */
  function Wrap<T>(c: Cmd<T>, rs: seq<Redirect<T>>): (r: Cmd<T>)
    decreases |rs|
  {
    if rs == [] then c else Wrap(Redir(c, rs[0].file, rs[0].out), rs[1..])
  }

  function ParseExec(s: string, i: nat): (r: Res<Cmd<Span>>)
    requires i <= |s|
    ensures r.Ok? ==> i <= r.at <= |s|
    decreases |s| - i, 1
  {
    if Peek(s, i, "(") then ParseBlock(s, Skip(s, i))
    else
      match ParseRedirs(s, Skip(s, i), [])
      case Fail => Fail
      case Ok(rs, j) =>
        match ParseArgs(s, j, Simple([], rs))
        case Fail => Fail
        case Ok(c, k) => Ok(Wrap(Exec(c.args), c.rs), k)
  }

  function ParseBlock(s: string, i: nat): (r: Res<Cmd<Span>>)
    requires i <= |s|
    ensures r.Ok? ==> i <= r.at <= |s|
    decreases |s| - i, 0
  {
    if !Peek(s, i, "(") then Fail
    else
      match ParseLine(s, GetToken(s, Skip(s, i)).next)
      case Fail => Fail
      case Ok(c, j) =>
        if !Peek(s, j, ")") then Fail
        else
          match ParseRedirs(s, GetToken(s, Skip(s, j)).next, [])
          case Fail => Fail
          case Ok(rs, k) => Ok(Wrap(c, rs), k)
  }

  function ParsePipe(s: string, i: nat): (r: Res<Cmd<Span>>)
    requires i <= |s|
    ensures r.Ok? ==> i <= r.at <= |s|
    decreases |s| - i, 2
  {
    match ParseExec(s, i)
    case Fail => Fail
    case Ok(c, j) =>
      if Peek(s, j, "|") then
        match ParsePipe(s, GetToken(s, Skip(s, j)).next)
        case Fail => Fail
        case Ok(d, k) => Ok(Pipe(c, d), k)
      else Ok(c, Skip(s, j))
  }

  /** The first loop of parseline. */
  function ParseBacks(s: string, i: nat, c: Cmd<Span>): (r: Res<Cmd<Span>>)
    requires i <= |s|
    ensures r.Ok? && i <= r.at <= |s|
    decreases |s| - i
  {
    if Peek(s, i, "&") then ParseBacks(s, GetToken(s, Skip(s, i)).next, Back(c))
    else Ok(c, Skip(s, i))
  }

  function ParseLine(s: string, i: nat): (r: Res<Cmd<Span>>)
    requires i <= |s|
    ensures r.Ok? ==> i <= r.at <= |s|
    decreases |s| - i, 3
  {
    match ParsePipe(s, i)
    case Fail => Fail
    case Ok(p, h) =>
      var b := ParseBacks(s, h, p);
      if Peek(s, b.at, ";") then
        match ParseLine(s, GetToken(s, Skip(s, b.at)).next)
        case Fail => Fail
        case Ok(d, k) => Ok(List(b.v, d), k)
      else Ok(b.v, Skip(s, b.at))
  }

  /** parsecmd, but for the terminators. */
  function ParseCmd(s: string): (r: Res<Cmd<Span>>) {
    match ParseLine(s, 0)
    case Fail => Fail
    case Ok(c, i) => if Skip(s, i) == |s| then Ok(c, |s|) else Fail
  }

  /** The command with its words read off the line. */
  function Text(s: string, c: Cmd<Span>): (t: Cmd<string>) {
    match c
    case Exec(args) => Exec(Texts(s, args))
    case Redir(d, f, out) => Redir(Text(s, d), SpanText(s, f), out)
    case Pipe(l, r) => Pipe(Text(s, l), Text(s, r))
    case List(l, r) => List(Text(s, l), Text(s, r))
    case Back(d) => Back(Text(s, d))
  }

  function SpanText(s: string, w: Span): (t: string) {
    if w.q <= w.eq <= |s| then s[w.q..w.eq] else []
  }

  function Texts(s: string, ws: seq<Span>): (t: seq<string>)
    ensures |t| == |ws|
  {
    seq(|ws|, k requires 0 <= k < |ws| => SpanText(s, ws[k]))
  }

  // ---------------------------------------------------------------- printing

  /** A token as text: a word, a symbol, or the sign that appends. */
  datatype PTok = W(w: string) | S(c: char) | A

  function TokText(p: PTok): (w: string) {
    match p
    case W(w) => w
    case S(c) => [c]
    case A => ">>"
  }

  predicate LegalWord(w: string) {
    w != [] && forall k :: 0 <= k < |w| ==> WordChar(w[k]) && w[k] != '\0'
  }

  /** Trees over legal words, with at most 9 arguments to a command. */
  predicate Legal(t: Cmd<string>) {
    match t
    case Exec(args) => |args| < MAXARGS && forall k :: 0 <= k < |args| ==> LegalWord(args[k])
    case Redir(d, f, out) => Legal(d) && LegalWord(f)
    case Pipe(l, r) => Legal(l) && Legal(r)
    case List(l, r) => Legal(l) && Legal(r)
    case Back(d) => Legal(d)
  }

  /** The command under the redirections, and the redirections, innermost first. */
  function Core(t: Cmd<string>): (c: Cmd<string>)
    ensures !c.Redir? && (t.Redir? ==> c < t) && (!t.Redir? ==> c == t)
  {
    if t.Redir? then Core(t.cmd) else t
  }

  function Redirs(t: Cmd<string>): (rs: seq<Redirect<string>>) {
    if t.Redir? then Redirs(t.cmd) + [Redirect(t.file, t.out)] else []
  }

  function Words(ws: seq<string>): (ts: seq<PTok>) {
    if ws == [] then [] else [W(ws[0])] + Words(ws[1..])
  }

  function RedirToks(rs: seq<Redirect<string>>): (ts: seq<PTok>) {
    if rs == [] then [] else [S(if rs[0].out then '>' else '<'), W(rs[0].file)] + RedirToks(rs[1..])
  }

  /** Print a command where parseline, its first loop, parsepipe or parseexec expects one. */
  function PrintLine(t: Cmd<string>): (ts: seq<PTok>)
    decreases t, 3
  {
    if t.List? then PrintBack(t.first) + [S(';')] + PrintLine(t.second) else PrintBack(t)
  }

  function PrintBack(t: Cmd<string>): (ts: seq<PTok>)
    decreases t, if t.List? then 6 else 2
  {
    if t.Back? then PrintBack(t.job) + [S('&')] else PrintPipe(t)
  }

  function PrintPipe(t: Cmd<string>): (ts: seq<PTok>)
    decreases t, if t.List? || t.Back? then 5 else 1
  {
    if t.Pipe? then PrintExec(t.left) + [S('|')] + PrintPipe(t.right) else PrintExec(t)
  }

  function PrintExec(t: Cmd<string>): (ts: seq<PTok>)
    decreases t, if t.Exec? || t.Redir? then 0 else 4
  {
    var c := Core(t);
    (if c.Exec? then Words(c.args) else [S('(')] + PrintLine(c) + [S(')')]) + RedirToks(Redirs(t))
  }

  /** Tokens as text, with a blank behind each. */
  function Render(ts: seq<PTok>): (s: string) {
    if ts == [] then [] else TokText(ts[0]) + " " + Render(ts[1..])
  }
}
