/**
  The shell's parser over characters, as `src/user/sh/main.c` has it: a cursor into the input line,
  tokens as places in that line, and NULs written into it afterwards.
 */
module Shell {
  import opened ShellGrammar
  import ShellDerivations

  const NUL := '\0'

  predicate Space(c: char) {
    c == ' ' || c == '\t' || c == '\r' || c == '\n' || c == '\U{0B}'
  }

  predicate Symbol(c: char) {
    c == '<' || c == '|' || c == '>' || c == '&' || c == ';' || c == '(' || c == ')'
  }

  predicate WordChar(c: char) {
    !Space(c) && !Symbol(c) && c != NUL
  }

  /** `strlen` stops at the first NUL, so a line has none. */
  predicate LineOk(s: string) {
    forall i: nat | i < |s| :: s[i] != NUL
  }

  /** A word in the line: `q` and `eq`. */
  datatype Span = Span(q: nat, eq: nat)

  // ----- the tokens of a line -----

  function Skip(s: string, i: nat): (j: nat)
    requires i <= |s|
    ensures i <= j <= |s| && (j < |s| ==> !Space(s[j])) && forall k: nat | i <= k < j :: Space(s[k])
    decreases |s| - i
  {
    if i < |s| && Space(s[i]) then Skip(s, i + 1) else i
  }

  function WordEnd(s: string, i: nat): (j: nat)
    requires i <= |s|
    ensures i <= j <= |s| && (j < |s| ==> Space(s[j]) || Symbol(s[j]))
            && forall k: nat | i <= k < j :: !Space(s[k]) && !Symbol(s[k])
    decreases |s| - i
  {
    if i < |s| && !Space(s[i]) && !Symbol(s[i]) then WordEnd(s, i + 1) else i
  }

  /** The token at j and where it ends. */
  function TokenEnd(s: string, j: nat): (k: nat)
    requires j < |s| && !Space(s[j])
    ensures j < k <= |s|
  {
    if s[j] == '>' && j + 1 < |s| && s[j + 1] == '>' then j + 2
    else if Symbol(s[j]) then j + 1
    else WordEnd(s, j + 1)
  }

  function TokenAt(s: string, j: nat): Token<Span>
    requires j < |s| && !Space(s[j])
  {
    if s[j] == '>' && j + 1 < |s| && s[j + 1] == '>' then Append
    else if Symbol(s[j]) then Sym(s[j])
    else Word(Span(j, TokenEnd(s, j)))
  }

  function Lex(s: string, i: nat): seq<Token<Span>>
    requires i <= |s|
    decreases |s| - i
  {
    var j := Skip(s, i);
    if j == |s| then [] else [TokenAt(s, j)] + Lex(s, TokenEnd(s, j))
  }

  lemma {:induction false} LexSkip(s: string, i: nat)
    requires i <= |s|
    ensures Lex(s, Skip(s, i)) == Lex(s, i)
  {
    SkipTwice(s, i);
  }

  lemma {:induction false} SkipTwice(s: string, i: nat)
    requires i <= |s|
    ensures Skip(s, Skip(s, i)) == Skip(s, i)
  {
  }

  // ----- the parser -----

  datatype Parsed = Panicked | Tree(cmd: Cmd<Span>)

  /** The method's answer and the rest of the line agree with the grammar. */
  ghost predicate Agrees(r: Parsed, spec: Res<Span>, rest: seq<Token<Span>>) {
    match spec
    case Err => r.Panicked?
    case Ok(c, ts) => r == Tree(c) && ts == rest
  }

  lemma {:induction false} RedirsOnly(c: Cmd<Span>, ts: seq<Token<Span>>, rest: seq<Token<Span>>)
    ensures forall d :: Redirs(c, ts) == Ok(d, rest) <==> ShellDerivations.Redirected(c, ts, d, rest)
  {
    forall d ensures Redirs(c, ts) == Ok(d, rest) <==> ShellDerivations.Redirected(c, ts, d, rest) {
      ShellDerivations.RedirsExact(c, ts, d, rest);
    }
  }

  class Parser {
    const s: string
    var pos: nat

    constructor (s: string)
      requires LineOk(s)
      ensures this.s == s && pos == 0
    {
      this.s, pos := s, 0;
    }

    ghost predicate Valid()
      reads this
    {
      pos <= |s| && LineOk(s)
    }

    ghost function Rest(): seq<Token<Span>>
      reads this
      requires Valid()
    {
      Lex(s, pos)
    }

    method SkipSpaces()
      requires Valid()
      modifies `pos
      ensures Valid() && pos == Skip(s, old(pos)) && Rest() == old(Rest())
    {
      LexSkip(s, pos);
      while pos < |s| && Space(s[pos])
        invariant Valid() && Skip(s, pos) == Skip(s, old(pos))
        decreases |s| - pos
      {
        pos := pos + 1;
      }
    }

    /** `peek`: does the rest begin with one of these symbols? */
    method Peek(toks: string) returns (r: bool)
      requires Valid() && forall c | c in toks :: Symbol(c)
      modifies `pos
      ensures Valid() && Rest() == old(Rest())
      ensures r == (Rest() != [] && ((Rest()[0].Sym? && Rest()[0].c in toks) || (Rest()[0].Append? && '>' in toks)))
    {
      SkipSpaces();
      SkipTwice(s, old(pos));
      r := pos < |s| && s[pos] in toks;
    }

    /** `gettoken`; End is its answer 0. */
    method GetToken() returns (end: bool, t: Token<Span>)
      requires Valid()
      modifies `pos
      ensures Valid() && end == (old(Rest()) == [])
      ensures end ==> Rest() == []
      ensures !end ==> t == old(Rest())[0] && Rest() == old(Rest())[1..]
    {
      SkipSpaces();
      SkipTwice(s, old(pos));
      if pos == |s| { return true, Append; }
      end := false;
      ghost var j := pos;
      if s[pos] == '>' {
        pos := pos + 1;
        t := Sym('>');
        if pos < |s| && s[pos] == '>' {
          t := Append;
          pos := pos + 1;
        }
      } else if Symbol(s[pos]) {
        t := Sym(s[pos]);
        pos := pos + 1;
      } else {
        var q := pos;
        pos := pos + 1;
        while pos < |s| && !Space(s[pos]) && !Symbol(s[pos])
          invariant Valid() && WordEnd(s, pos) == WordEnd(s, j + 1)
          decreases |s| - pos
        {
          pos := pos + 1;
        }
        t := Word(Span(q, pos));
      }
      assert pos == TokenEnd(s, j) && t == TokenAt(s, j);
      SkipSpaces();
    }

    /** `parseredirs` */
    method ParseRedirs(c0: Cmd<Span>) returns (r: Parsed)
      requires Valid()
      modifies `pos
      ensures Valid() && Agrees(r, Redirs(c0, old(Rest())), Rest()) && |Rest()| <= |old(Rest())|
      ensures forall d :: r == Tree(d) <==> ShellDerivations.Redirected(c0, old(Rest()), d, Rest())
    {
      hide Lex, ShellDerivations.Redirected;
      var c := c0;
      var more := Peek("<>");
      while more
        invariant Valid() && Redirs(c, Rest()) == Redirs(c0, old(Rest())) && |Rest()| <= |old(Rest())|
        invariant more == (Rest() != [] && IsRedir(Rest()[0]))
        decreases |Rest()|
      {
        ghost var ts := Rest();
        var end, tok := GetToken();
        var end2, w := GetToken();
        if end2 || !w.Word? {
          RedirsOnly(c0, old(Rest()), Rest());
          return Panicked;
        }
        assert Rest() == ts[2..] && w == ts[1];
        c := Redir(c, w.w, if tok == Sym('<') then 0 else 1);
        more := Peek("<>");
      }
      RedirsOnly(c0, old(Rest()), Rest());
      r := Tree(c);
    }

    /** `parseexec` */
    method ParseExec() returns (r: Parsed)
      requires Valid()
      modifies `pos
      ensures Valid() && Agrees(r, ShellGrammar.ParseExec(old(Rest())), Rest()) && |Rest()| <= |old(Rest())|
      decreases |Rest()|, 1
    {
      hide Lex, Redirs, ShellDerivations.Redirected;
      var block := Peek("(");
      if block {
        r := ParseBlock();
        return;
      }
      r := ParseRedirs(Exec([]));
      if r.Panicked? { return; }
      var c := r.cmd;
      var stop := Peek("|)&;");
      while !stop
        invariant Valid() && ExecLoop(c, Rest()) == ShellGrammar.ParseExec(old(Rest())) && |Rest()| <= |old(Rest())|
        invariant stop == Stops(Rest())
        decreases |Rest()|, !stop
      {
        ghost var ts := Rest();
        var end, tok := GetToken();
        if end { break; }
        if !tok.Word? { return Panicked; }
        if Args(c) + 1 >= MAXARGS { return Panicked; }
        r := ParseRedirs(AddArg(c, tok.w));
        if r.Panicked? { return; }
        c := r.cmd;
        stop := Peek("|)&;");
      }
      r := Tree(c);
    }

    /** `parseblock`, at an opening parenthesis. */
    method ParseBlock() returns (r: Parsed)
      requires Valid() && Head(Rest(), '(')
      modifies `pos
      ensures Valid() && Agrees(r, ShellGrammar.ParseBlock(old(Rest())), Rest()) && |Rest()| <= |old(Rest())|
      decreases |Rest()|, 0
    {
      hide Lex, Redirs;
      var end, tok := GetToken();
      r := ParseLine();
      if r.Panicked? { return; }
      var closed := Peek(")");
      if !closed { return Panicked; }
      end, tok := GetToken();
      r := ParseRedirs(r.cmd);
    }

    /** `parsepipe` */
    method ParsePipe() returns (r: Parsed)
      requires Valid()
      modifies `pos
      ensures Valid() && Agrees(r, ShellGrammar.ParsePipe(old(Rest())), Rest()) && |Rest()| <= |old(Rest())|
      decreases |Rest()|, 2
    {
      hide Lex, ShellGrammar.ParseExec;
      r := ParseExec();
      if r.Panicked? { return; }
      var c := r.cmd;
      var bar := Peek("|");
      if bar {
        var end, tok := GetToken();
        r := ParsePipe();
        if r.Tree? { r := Tree(Pipe(c, r.cmd)); }
      }
    }

    /** `parseline` */
    method ParseLine() returns (r: Parsed)
      requires Valid()
      modifies `pos
      ensures Valid() && Agrees(r, ShellGrammar.ParseLine(old(Rest())), Rest()) && |Rest()| <= |old(Rest())|
      decreases |Rest()|, 3
    {
      hide Lex, ShellGrammar.ParsePipe;
      r := ParsePipe();
      if r.Panicked? { return; }
      var c := r.cmd;
      ghost var first := Rest();
      ghost var c0 := c;
      var amp := Peek("&");
      while amp
        invariant Valid() && Backs(c, Rest()) == Backs(c0, first) && |Rest()| <= |first|
        invariant amp == Head(Rest(), '&')
        decreases |Rest()|
      {
        var end, tok := GetToken();
        c := Back(c);
        amp := Peek("&");
      }
      var semi := Peek(";");
      if semi {
        var end, tok := GetToken();
        r := ParseLine();
        if r.Tree? { r := Tree(List(c, r.cmd)); }
      } else {
        r := Tree(c);
      }
    }

    /** `parsecmd` without its last step: the whole line must be used up. */
    method ParseCmd() returns (r: Parsed)
      requires Valid() && pos == 0
      modifies `pos
      ensures Valid() && r == Whole(ShellGrammar.ParseLine(Lex(s, 0)))
      ensures forall c :: r == Tree(c) <==> ShellDerivations.Derives(Lex(s, 0), c)
    {
      hide Lex, ShellGrammar.ParseLine, ShellDerivations.Derives;
      AcceptedExactly(Lex(s, 0));
      r := ParseLine();
      if r.Panicked? { return; }
      SkipSpaces();
      RestEnds(s, pos);
      if pos != |s| { r := Panicked; }
    }
  }

  /** Accepted is what the grammar derives. */
  lemma {:induction false} AcceptedExactly(ts: seq<Token<Span>>)
    ensures forall c :: Whole(ShellGrammar.ParseLine(ts)) == Tree(c) <==> ShellDerivations.Derives(ts, c)
  {
    hide ShellGrammar.ParseLine, ShellDerivations.Derives;
    forall c ensures Whole(ShellGrammar.ParseLine(ts)) == Tree(c) <==> ShellDerivations.Derives(ts, c) {
      assert ts + [] == ts;
      ShellDerivations.LineExact(ts, [], c);
    }
  }

  function Whole(res: Res<Span>): Parsed {
    if res.Ok? && res.rest == [] then Tree(res.cmd) else Panicked
  }

  lemma {:induction false} RestEnds(s: string, i: nat)
    requires i <= |s| && Skip(s, i) == i
    ensures Lex(s, i) == [] <==> i == |s|
  {
  }
}
