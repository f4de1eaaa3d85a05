/** The regular-expression matcher of grep, against the language its patterns denote. */
module Grep {

  /** One character, or any number of them; '.' stands for every character. */
  datatype Item = One(c: char) | Star(c: char)

  /** A pattern without its leading '^': items, and whether it ends in '$'. */
  datatype Pattern = Pattern(items: seq<Item>, eol: bool)

  /** How the text of a pattern is read: a star first, then a final '$', then a character. */
  function Parse(re: string): (p: Pattern)
    decreases |re|
  {
    if re == [] then Pattern([], false)
    else if |re| >= 2 && re[1] == '*' then
      var q := Parse(re[2..]);
      q.(items := [Star(re[0])] + q.items)
    else if re == "$" then Pattern([], true)
    else
      var q := Parse(re[1..]);
      q.(items := [One(re[0])] + q.items)
  }

  /** A pattern written out. */
  function Show(p: Pattern): (re: string)
    decreases |p.items|
  {
    if p.items == [] then if p.eol then "$" else []
    else (if p.items[0].Star? then [p.items[0].c, '*'] else [p.items[0].c]) + Show(p.(items := p.items[1..]))
  }

  /** No character stands before a '*' but as what is repeated, and no '$' at the end but as the end. */
  predicate Normal(p: Pattern) {
    && (forall k :: 0 <= k < |p.items| - 1 && p.items[k].One? ==> p.items[k + 1].c != '*')
    && (p.items != [] && !p.eol ==> p.items[|p.items| - 1] != One('$'))
  }

  lemma NormalFront(p: Pattern, i: Item)
    requires Normal(p) && (i.One? && p.items != [] ==> p.items[0].c != '*')
    requires i == One('$') ==> p.items != [] || p.eol
    ensures Normal(p.(items := [i] + p.items))
  {
  }

  lemma ShowFront(p: Pattern, i: Item)
    ensures Show(p.(items := [i] + p.items)) == (if i.Star? then [i.c, '*'] else [i.c]) + Show(p)
  {
    assert ([i] + p.items)[1..] == p.items;
  }

  /** The text of a pattern is read in full, and in the one way that is normal. */
  lemma {:induction false} ParseShows(re: string)
    ensures Show(Parse(re)) == re && Normal(Parse(re))
    decreases |re|
  {
    if re != [] && re != "$" {
      hide Show, Normal;
      if |re| >= 2 && re[1] == '*' {
        ParseShows(re[2..]);
        ShowFront(Parse(re[2..]), Star(re[0]));
        NormalFront(Parse(re[2..]), Star(re[0]));
        assert re == [re[0], '*'] + re[2..];
      } else {
        var q := Parse(re[1..]);
        ParseShows(re[1..]);
        ShowFront(q, One(re[0]));
        if q.items != [] {
          FirstShown(q);
        } else if re[0] == '$' {
          NoItems(q);
        }
        NormalFront(q, One(re[0]));
        assert re == [re[0]] + re[1..];
      }
    }
  }

  lemma NoItems(p: Pattern)
    requires p.items == [] && Show(p) != []
    ensures p.eol
  {
  }

  lemma FirstShown(p: Pattern)
    requires p.items != []
    ensures Show(p) != [] && Show(p)[0] == p.items[0].c
  {
  }

  lemma {:induction false} ShowParses(p: Pattern)
    requires Normal(p)
    ensures Parse(Show(p)) == p
    decreases |p.items|
  {
    if p.items != [] {
      var q := p.(items := p.items[1..]);
      ShowParses(q);
      var re := Show(p);
      if p.items[0].Star? {
        assert re[2..] == Show(q);
      } else {
        assert re[1..] == Show(q);
        if q.items != [] {
          FirstShown(q);
        }
      }
    }
  }

  predicate Ok(c: char, x: char) {
    c == '.' || c == x
  }

  /** The texts an item denotes. */
  ghost predicate Fits(i: Item, w: string) {
    match i
    case One(c) => |w| == 1 && Ok(c, w[0])
    case Star(c) => forall k :: 0 <= k < |w| ==> Ok(c, w[k])
  }

  function Flat(pieces: seq<string>): (w: string) {
    if pieces == [] then [] else pieces[0] + Flat(pieces[1..])
  }

  /** pieces has one piece for each item. */
  ghost predicate Pieces(items: seq<Item>, pieces: seq<string>) {
    |pieces| == |items| && forall k :: 0 <= k < |items| ==> Fits(items[k], pieces[k])
  }

  /** The language of a sequence of items: texts made of one piece for each. */
  ghost predicate InLanguage(items: seq<Item>, w: string) {
    exists pieces :: Pieces(items, pieces) && Flat(pieces) == w
  }

  /** The pattern matches text[i..j]. */
  ghost predicate MatchesAt(re: string, text: string, i: nat, j: nat) {
    && i <= j <= |text|
    && var body := if re != [] && re[0] == '^' then re[1..] else re;
       && InLanguage(Parse(body).items, text[i..j])
       && (Parse(body).eol ==> j == |text|)
       && (re != [] && re[0] == '^' ==> i == 0)
  }

  /** What grep promises: some part of the text is in the language, anchored where the pattern says. */
  ghost predicate Matches(re: string, text: string) {
    exists i, j :: MatchesAt(re, text, i, j)
  }

  // ---------------------------------------------------------------- matching from the left

  /** The items match a beginning of the text, all of it if eol. */
  predicate Accepts(items: seq<Item>, eol: bool, text: string)
    decreases |items|, |text|
  {
    if items == [] then !eol || text == []
    else
      match items[0]
      case One(c) => text != [] && Ok(c, text[0]) && Accepts(items[1..], eol, text[1..])
      case Star(c) =>
        || Accepts(items[1..], eol, text)
        || (text != [] && Ok(c, text[0]) && Accepts(items, eol, text[1..]))
  }

  lemma {:induction false} Sound(items: seq<Item>, eol: bool, text: string) returns (pieces: seq<string>, rest: string)
    requires Accepts(items, eol, text)
    ensures Pieces(items, pieces) && text == Flat(pieces) + rest && (eol ==> rest == [])
    decreases |items|, |text|
  {
    if items == [] {
      pieces, rest := [], text;
    } else if items[0].One? {
      var q;
      q, rest := Sound(items[1..], eol, text[1..]);
      pieces := [[text[0]]] + q;
      Front(items, [text[0]], q);
    } else if Accepts(items[1..], eol, text) {
      var q;
      q, rest := Sound(items[1..], eol, text);
      pieces := [[]] + q;
      Front(items, [], q);
    } else {
      var q;
      q, rest := Sound(items, eol, text[1..]);
      pieces := [[text[0]] + q[0]] + q[1..];
      Front(items, [text[0]] + q[0], q[1..]);
    }
  }

  lemma Front(items: seq<Item>, w: string, q: seq<string>)
    requires items != [] && Fits(items[0], w) && Pieces(items[1..], q)
    ensures Pieces(items, [w] + q) && Flat([w] + q) == w + Flat(q)
  {
    var p := [w] + q;
    assert p[1..] == q;
    forall k | 0 <= k < |items| ensures Fits(items[k], p[k]) {
      assert k > 0 ==> Fits(items[1..][k - 1], q[k - 1]);
    }
  }

  lemma Tail(items: seq<Item>, pieces: seq<string>)
    requires items != [] && Pieces(items, pieces)
    ensures Pieces(items[1..], pieces[1..]) && Fits(items[0], pieces[0])
  {
  }

  lemma {:induction false} Complete(items: seq<Item>, eol: bool, text: string, pieces: seq<string>, rest: string)
    requires Pieces(items, pieces) && text == Flat(pieces) + rest && (eol ==> rest == [])
    ensures Accepts(items, eol, text)
    decreases |items|, |text|
  {
    if items != [] {
      Tail(items, pieces);
      var w, q := pieces[0], pieces[1..];
      if w == [] {
        assert text == Flat(q) + rest;
        Complete(items[1..], eol, text, q, rest);
      } else {
        assert text[0] == w[0] && text[1..] == w[1..] + Flat(q) + rest;
        if items[0].One? {
          assert text[1..] == Flat(q) + rest;
          Complete(items[1..], eol, text[1..], q, rest);
        } else {
          Front(items, w[1..], q);
          Complete(items, eol, text[1..], [w[1..]] + q, rest);
        }
      }
    }
  }

  /** Matching from the left finds exactly the beginnings that are in the language. */
  lemma AcceptsIff(items: seq<Item>, eol: bool, text: string)
    ensures Accepts(items, eol, text) <==>
      exists j :: 0 <= j <= |text| && InLanguage(items, text[..j]) && (eol ==> j == |text|)
  {
    if Accepts(items, eol, text) {
      var pieces, rest := Sound(items, eol, text);
      assert text[..|Flat(pieces)|] == Flat(pieces);
      assert InLanguage(items, text[..|Flat(pieces)|]);
    }
    if j :| 0 <= j <= |text| && InLanguage(items, text[..j]) && (eol ==> j == |text|) {
      var pieces :| Pieces(items, pieces) && Flat(pieces) == text[..j];
      Complete(items, eol, text, pieces, text[j..]);
    }
  }

  // ---------------------------------------------------------------- the code

  method MatchHere(re: string, text: string) returns (r: bool)
    ensures r == Accepts(Parse(re).items, Parse(re).eol, text)
    decreases |re|, 0
  {
    if re == [] {
      return true;
    }
    if |re| >= 2 && re[1] == '*' {
      r := MatchStar(re[0], re[2..], text);
      return;
    }
    if re == "$" {
      return text == [];
    }
    if text != [] && (re[0] == '.' || re[0] == text[0]) {
      r := MatchHere(re[1..], text[1..]);
      return;
    }
    r := false;
  }

  method MatchStar(c: char, re: string, text: string) returns (r: bool)
    ensures r == Accepts([Star(c)] + Parse(re).items, Parse(re).eol, text)
    decreases |re|, 1
  {
    ghost var p := Parse(re);
    ghost var items := [Star(c)] + p.items;
    assert items[1..] == p.items;
    var t := 0;
    while true
      invariant 0 <= t <= |text|
      invariant Accepts(items, p.eol, text) <==> Accepts(items, p.eol, text[t..])
      decreases |text| - t
    {
      assert text[t..] != [] ==> text[t..][1..] == text[t + 1..];
      r := MatchHere(re, text[t..]);
      if r {
        return;
      }
      if t == |text| || !(text[t] == c || c == '.') {
        return;
      }
      t := t + 1;
    }
  }

  /** match: sound and complete for the language of the pattern. */
  method Match(re: string, text: string) returns (r: bool)
    ensures r <==> Matches(re, text)
  {
    if re != [] && re[0] == '^' {
      r := MatchHere(re[1..], text);
      AnchoredIff(re, text);
      return;
    }
    var t := 0;
    while true
      invariant 0 <= t <= |text|
      invariant forall i :: 0 <= i < t ==> !Accepts(Parse(re).items, Parse(re).eol, text[i..])
      decreases |text| - t
    {
      r := MatchHere(re, text[t..]);
      if r {
        FloatingIff(re, text);
        return;
      }
      if t == |text| {
        FloatingIff(re, text);
        return;
      }
      t := t + 1;
    }
  }

  lemma AnchoredIff(re: string, text: string)
    requires re != [] && re[0] == '^'
    ensures Matches(re, text) <==> Accepts(Parse(re[1..]).items, Parse(re[1..]).eol, text)
  {
    var p := Parse(re[1..]);
    AcceptsIff(p.items, p.eol, text);
    forall j | 0 <= j <= |text| ensures text[0..j] == text[..j] {
    }
    if j: nat :| j <= |text| && InLanguage(p.items, text[..j]) && (p.eol ==> j == |text|) {
      assert MatchesAt(re, text, 0, j);
    }
  }

  lemma FloatingIff(re: string, text: string)
    requires re == [] || re[0] != '^'
    ensures Matches(re, text) <==> exists i :: 0 <= i <= |text| && Accepts(Parse(re).items, Parse(re).eol, text[i..])
  {
    var p := Parse(re);
    forall i, j | 0 <= i <= j <= |text| ensures text[i..][..j - i] == text[i..j] {
    }
    if i: nat, j: nat :| MatchesAt(re, text, i, j) {
      AcceptsIff(p.items, p.eol, text[i..]);
      assert text[i..][..j - i] == text[i..j];
      assert InLanguage(p.items, text[i..][..j - i]);
    }
    if i: nat :| i <= |text| && Accepts(p.items, p.eol, text[i..]) {
      AcceptsIff(p.items, p.eol, text[i..]);
      var j: nat :| j <= |text[i..]| && InLanguage(p.items, text[i..][..j]) && (p.eol ==> j == |text[i..]|);
      assert text[i..][..j] == text[i..i + j];
      assert MatchesAt(re, text, i, i + j);
    }
  }
}
