/**
  The grammar of the shell in `src/user/sh/main.c` over tokens: its recursive-descent parser as
  functions, a printer that puts parentheses where the grammar needs them, and the round trip.
 */
module ShellGrammar {
  const MAXARGS := 10

  datatype Token<W> = Word(w: W) | Sym(c: char) | Append

  /** fd is 0 for `<` and 1 for both `>` and `>>`, which the parser does not tell apart. */
  datatype Cmd<W> = Exec(args: seq<W>) | Redir(cmd: Cmd<W>, file: W, fd: nat) | Pipe(l: Cmd<W>, r: Cmd<W>)
    | List(l: Cmd<W>, r: Cmd<W>) | Back(c: Cmd<W>)

  /** Err is a call of PANIC. */
  datatype Res<W> = Err | Ok(cmd: Cmd<W>, rest: seq<Token<W>>)

  predicate Head<W>(ts: seq<Token<W>>, c: char) {
    ts != [] && ts[0].Sym? && ts[0].c == c
  }

  predicate IsRedir<W>(t: Token<W>) {
    t.Append? || (t.Sym? && (t.c == '<' || t.c == '>'))
  }

  predicate Stops<W>(ts: seq<Token<W>>) {
    Head(ts, '|') || Head(ts, ')') || Head(ts, '&') || Head(ts, ';')
  }

  // ----- the parser -----

  /** `parseredirs` */
  function Redirs<W>(c: Cmd<W>, ts: seq<Token<W>>): (r: Res<W>)
    ensures r.Ok? ==> |r.rest| <= |ts|
    decreases |ts|
  {
    if ts == [] || !IsRedir(ts[0]) then Ok(c, ts)
    else if |ts| == 1 || !ts[1].Word? then Err
    else Redirs(Redir(c, ts[1].w, if Head(ts, '<') then 0 else 1), ts[2..])
  }

  /** The argument goes to the command under the redirections. */
  function AddArg<W>(c: Cmd<W>, w: W): Cmd<W> {
    match c
    case Exec(args) => Exec(args + [w])
    case Redir(d, f, fd) => Redir(AddArg(d, w), f, fd)
    case _ => c
  }

  function Args<W>(c: Cmd<W>): nat {
    match c
    case Exec(args) => |args|
    case Redir(d, _, _) => Args(d)
    case _ => 0
  }

  /** The loop of `parseexec`. */
  function ExecLoop<W>(c: Cmd<W>, ts: seq<Token<W>>): (r: Res<W>)
    ensures r.Ok? ==> |r.rest| <= |ts|
    decreases |ts|
  {
    if ts == [] || Stops(ts) then Ok(c, ts)
    else if !ts[0].Word? then Err
    else if Args(c) + 1 >= MAXARGS then Err
    else
      var d := Redirs(AddArg(c, ts[0].w), ts[1..]);
      if d.Err? then Err else ExecLoop(d.cmd, d.rest)
  }

  function ParseExec<W>(ts: seq<Token<W>>): (r: Res<W>)
    ensures r.Ok? ==> |r.rest| <= |ts|
    decreases |ts|, 1
  {
    if Head(ts, '(') then ParseBlock(ts)
    else
      var d := Redirs(Exec([]), ts);
      if d.Err? then Err else ExecLoop(d.cmd, d.rest)
  }

  function ParseBlock<W>(ts: seq<Token<W>>): (r: Res<W>)
    requires Head(ts, '(')
    ensures r.Ok? ==> |r.rest| <= |ts|
    decreases |ts|, 0
  {
    var d := ParseLine(ts[1..]);
    if d.Err? || !Head(d.rest, ')') then Err else Redirs(d.cmd, d.rest[1..])
  }

  function ParsePipe<W>(ts: seq<Token<W>>): (r: Res<W>)
    ensures r.Ok? ==> |r.rest| <= |ts|
    decreases |ts|, 2
  {
    var d := ParseExec(ts);
    if d.Err? then Err
    else if Head(d.rest, '|') then
      var e := ParsePipe(d.rest[1..]);
      if e.Err? then Err else Ok(Pipe(d.cmd, e.cmd), e.rest)
    else d
  }

  /** The `&` loop of `parseline`. */
  function Backs<W>(c: Cmd<W>, ts: seq<Token<W>>): (r: Res<W>)
    ensures r.Ok? && |r.rest| <= |ts|
    decreases |ts|
  {
    if Head(ts, '&') then Backs(Back(c), ts[1..]) else Ok(c, ts)
  }

  /** The rest of `parseline` after its first pipe. */
  function LineRest<W>(d: Res<W>, n: nat): (r: Res<W>)
    requires d.Ok? ==> |d.rest| <= n
    ensures r.Ok? ==> |r.rest| <= n
    decreases n, 3
  {
    if d.Err? then Err
    else
      var b := Backs(d.cmd, d.rest);
      if Head(b.rest, ';') then
        var e := ParseLine(b.rest[1..]);
        if e.Err? then Err else Ok(List(b.cmd, e.cmd), e.rest)
      else b
  }

  function ParseLine<W>(ts: seq<Token<W>>): (r: Res<W>)
    ensures r.Ok? ==> |r.rest| <= |ts|
    decreases |ts|, 4
  {
    LineRest(ParsePipe(ts), |ts|)
  }

  // ----- the printer -----

  predicate Simple<W>(c: Cmd<W>) {
    c.Exec? || c.Redir?
  }

  /** Which of the four printers of one command calls which. */
  function Rank<W>(c: Cmd<W>, level: nat): nat {
    match c
    case Exec(_) => level
    case Redir(_, _, _) => level
    case Pipe(_, _) => (level + 3) % 4
    case Back(_) => (level + 2) % 4
    case List(_, _) => (level + 1) % 4
  }

  function Words<W>(args: seq<W>): (r: seq<Token<W>>)
    ensures |r| == |args| && forall i: nat | i < |args| :: r[i] == Word(args[i])
  {
    seq(|args|, i requires 0 <= i < |args| => Word(args[i]))
  }

  function PrintExec<W>(c: Cmd<W>): seq<Token<W>>
    decreases c, Rank(c, 0)
  {
    match c
    case Exec(args) => Words(args)
    case Redir(d, f, fd) => PrintExec(d) + [Sym(if fd == 0 then '<' else '>'), Word(f)]
    case _ => [Sym('(')] + PrintLine(c) + [Sym(')')]
  }

  function PrintPipe<W>(c: Cmd<W>): seq<Token<W>>
    decreases c, Rank(c, 1)
  {
    if c.Pipe? then PrintExec(c.l) + [Sym('|')] + PrintPipe(c.r) else PrintExec(c)
  }

  function PrintBack<W>(c: Cmd<W>): seq<Token<W>>
    decreases c, Rank(c, 2)
  {
    if c.Back? then PrintBack(c.c) + [Sym('&')] else PrintPipe(c)
  }

  function PrintLine<W>(c: Cmd<W>): seq<Token<W>>
    decreases c, Rank(c, 3)
  {
    if c.List? then PrintBack(c.l) + [Sym(';')] + PrintLine(c.r) else PrintBack(c)
  }

  /** At most nine arguments everywhere, and file descriptors that the parser makes. */
  predicate Legal<W>(c: Cmd<W>) {
    match c
    case Exec(args) => |args| < MAXARGS
    case Redir(d, _, fd) => fd <= 1 && Legal(d)
    case Pipe(l, r) => Legal(l) && Legal(r)
    case List(l, r) => Legal(l) && Legal(r)
    case Back(d) => Legal(d)
  }

  // ----- the round trip -----

  /** The innermost command under the redirections. */
  function Base<W>(c: Cmd<W>): Cmd<W> {
    if c.Redir? then Base(c.cmd) else c
  }

  function RedirToks<W>(c: Cmd<W>): seq<Token<W>> {
    if c.Redir? then RedirToks(c.cmd) + [Sym(if c.fd == 0 then '<' else '>'), Word(c.file)] else []
  }

  lemma {:induction false} PrintExecSplit<W>(c: Cmd<W>)
    ensures PrintExec(c) == PrintExec(Base(c)) + RedirToks(c)
  {
    if c.Redir? { PrintExecSplit(c.cmd); }
  }

  lemma {:induction false} RedirsRead<W>(c: Cmd<W>, more: seq<Token<W>>)
    requires Legal(c)
    ensures Redirs(Base(c), RedirToks(c) + more) == Redirs(c, more)
  {
    if c.Redir? {
      var two := [Sym(if c.fd == 0 then '<' else '>'), Word(c.file)];
      RedirsRead(c.cmd, two + more);
      assert RedirToks(c) + more == RedirToks(c.cmd) + (two + more);
      assert (two + more)[2..] == more;
    } else {
      assert RedirToks(c) + more == more;
    }
  }

  /** What follows some arguments: redirections, then the loop. */
  function After<W>(c: Cmd<W>, more: seq<Token<W>>): Res<W> {
    var d := Redirs(c, more);
    if d.Err? then Err else ExecLoop(d.cmd, d.rest)
  }

  lemma {:induction false} WordsRead<W>(args: seq<W>, k: nat, more: seq<Token<W>>)
    requires k <= |args| < MAXARGS
    ensures After(Exec(args[..k]), Words(args[k..]) + more) == After(Exec(args), more)
    decreases |args| - k
  {
    if k == |args| {
      assert args[..k] == args && Words(args[k..]) + more == more;
    } else {
      var ts := Words(args[k..]) + more;
      assert ts[0] == Word(args[k]) && ts[1..] == Words(args[k + 1..]) + more;
      assert args[..k] + [args[k]] == args[..k + 1];
      WordsRead(args, k + 1, more);
    }
  }

  predicate Ends<W>(rest: seq<Token<W>>) {
    rest == [] || Stops(rest)
  }

  /** A simple command reads back, whatever may follow it. */
  lemma {:induction false} SimpleRead<W>(c: Cmd<W>, rest: seq<Token<W>>)
    requires Legal(c) && Base(c).Exec? && Ends(rest)
    ensures ParseExec(PrintExec(c) + rest) == Ok(c, rest)
  {
    var args := Base(c).args;
    LegalBase(c);
    PrintExecSplit(c);
    var more := RedirToks(c) + rest;
    assert PrintExec(c) + rest == Words(args) + more;
    assert !Head(Words(args) + more, '(') by { RedirHead(c, rest); }
    assert args[..0] == [] && args[0..] == args;
    WordsRead(args, 0, more);
    RedirsRead(c, rest);
    assert Redirs(c, rest) == Ok(c, rest);
  }

  lemma {:induction false} LegalBase<W>(c: Cmd<W>)
    requires Legal(c)
    ensures Legal(Base(c))
  {
    if c.Redir? { LegalBase(c.cmd); }
  }

  lemma {:induction false} RedirHead<W>(c: Cmd<W>, rest: seq<Token<W>>)
    requires Ends(rest)
    ensures !Head(RedirToks(c) + rest, '(')
  {
    if c.Redir? {
      var two := [Sym(if c.fd == 0 then '<' else '>'), Word(c.file)];
      RedirFirst(c);
    } else {
      assert RedirToks(c) + rest == rest;
    }
  }

  lemma {:induction false} RedirFirst<W>(c: Cmd<W>)
    requires c.Redir?
    ensures RedirToks(c) != [] && IsRedir(RedirToks(c)[0])
  {
    if c.cmd.Redir? { RedirFirst(c.cmd); }
  }

  /** A command in parentheses, with redirections behind it. */
  lemma {:induction false} BlockRead<W>(c: Cmd<W>, rest: seq<Token<W>>)
    requires Legal(c) && !Base(c).Exec? && Ends(rest)
    requires ParseLine(PrintLine(Base(c)) + ([Sym(')')] + (RedirToks(c) + rest))) ==
             Ok(Base(c), [Sym(')')] + (RedirToks(c) + rest))
    ensures ParseExec(PrintExec(c) + rest) == Ok(c, rest)
  {
    hide Redirs, RedirToks, ParseLine, PrintLine, PrintExec, Legal;
    PrintExecSplit(c);
    var more := RedirToks(c) + rest;
    var inner := PrintLine(Base(c)) + ([Sym(')')] + more);
    var ts := PrintExec(c) + rest;
    BaseNotRedir(c);
    BlockPrinted(Base(c));
    assert ts == [Sym('(')] + inner;
    assert ts[1..] == inner && ([Sym(')')] + more)[1..] == more;
    RedirsRead(c, rest);
    RedirsEnd(c, rest);
  }

  lemma {:induction false} RedirsEnd<W>(c: Cmd<W>, rest: seq<Token<W>>)
    requires Ends(rest)
    ensures Redirs(c, rest) == Ok(c, rest)
  {
  }

  lemma {:induction false} BlockPrinted<W>(c: Cmd<W>)
    requires !c.Exec? && !c.Redir?
    ensures PrintExec(c) == [Sym('(')] + PrintLine(c) + [Sym(')')]
  {
  }

  lemma {:induction false} BaseNotRedir<W>(c: Cmd<W>)
    ensures !Base(c).Redir?
  {
    if c.Redir? { BaseNotRedir(c.cmd); }
  }

  /** What is left of the `&`s and who they are for. */
  function Core<W>(c: Cmd<W>): Cmd<W> {
    if c.Back? then Core(c.c) else c
  }

  function Amps<W>(c: Cmd<W>): seq<Token<W>> {
    if c.Back? then Amps(c.c) + [Sym('&')] else []
  }

  lemma {:induction false} BacksRead<W>(c: Cmd<W>, rest: seq<Token<W>>)
    ensures Backs(Core(c), Amps(c) + rest) == Backs(c, rest)
    ensures PrintBack(c) == PrintPipe(Core(c)) + Amps(c)
  {
    if c.Back? {
      BacksRead(c.c, [Sym('&')] + rest);
      assert Amps(c) + rest == Amps(c.c) + ([Sym('&')] + rest);
      assert ([Sym('&')] + rest)[1..] == rest;
    } else {
      assert Amps(c) + rest == rest;
    }
  }

  function Size<W>(c: Cmd<W>): nat {
    match c
    case Exec(_) => 1
    case Redir(d, _, _) => 1 + Size(d)
    case Pipe(l, r) => 1 + Size(l) + Size(r)
    case List(l, r) => 1 + Size(l) + Size(r)
    case Back(d) => 1 + Size(d)
  }

  lemma {:induction false} BaseSmall<W>(c: Cmd<W>)
    requires Legal(c)
    ensures Size(Base(c)) <= Size(c) && Legal(Base(c)) && (c.Redir? ==> Size(Base(c)) < Size(c))
  {
    if c.Redir? { BaseSmall(c.cmd); }
  }

  lemma {:induction false} CoreSmall<W>(c: Cmd<W>)
    requires Legal(c)
    ensures Size(Core(c)) <= Size(c) && Legal(Core(c)) && !Core(c).Back? && (c.Back? ==> Size(Core(c)) < Size(c))
  {
    if c.Back? { CoreSmall(c.c); }
  }

  lemma {:induction false} ExecRead<W>(c: Cmd<W>, rest: seq<Token<W>>)
    requires Legal(c) && Ends(rest)
    ensures ParseExec(PrintExec(c) + rest) == Ok(c, rest)
    decreases Size(c), if Simple(c) then 0 else 5
  {
    if Base(c).Exec? {
      SimpleRead(c, rest);
    } else {
      BaseSmall(c);
      BaseNotRedir(c);
      LineRead(Base(c), [Sym(')')] + (RedirToks(c) + rest));
      BlockRead(c, rest);
    }
  }

  lemma {:induction false} PipeRead<W>(c: Cmd<W>, rest: seq<Token<W>>)
    requires Legal(c) && Ends(rest) && !Head(rest, '|')
    ensures ParsePipe(PrintPipe(c) + rest) == Ok(c, rest)
    decreases Size(c), if c.Pipe? then 2 else 6
  {
    if c.Pipe? {
      var more := [Sym('|')] + (PrintPipe(c.r) + rest);
      ExecRead(c.l, more);
      PipeRead(c.r, rest);
      assert PrintPipe(c) + rest == PrintExec(c.l) + more;
      assert more[1..] == PrintPipe(c.r) + rest;
    } else {
      ExecRead(c, rest);
    }
  }

  /** Parsing what a command prints, before anything that may follow a line, gives the command back. */
  lemma {:induction false} LineRead<W>(c: Cmd<W>, rest: seq<Token<W>>)
    requires Legal(c) && (rest == [] || Head(rest, ')'))
    ensures ParseLine(PrintLine(c) + rest) == Ok(c, rest)
    decreases Size(c), if Simple(c) then 7 else 4
  {
    var first, tail := if c.List? then c.l else c, if c.List? then [Sym(';')] + (PrintLine(c.r) + rest) else rest;
    var ts := PrintLine(c) + rest;
    assert ts == PrintBack(first) + tail;
    CoreSmall(first);
    BacksRead(first, tail);
    var more := Amps(first) + tail;
    AmpsEnd(first, tail);
    assert ts == PrintPipe(Core(first)) + more;
    PipeRead(Core(first), more);
    assert Backs(first, tail) == Ok(first, tail);
    if c.List? {
      LineRead(c.r, rest);
      assert tail[1..] == PrintLine(c.r) + rest;
    }
  }

  lemma {:induction false} AmpsEnd<W>(c: Cmd<W>, tail: seq<Token<W>>)
    requires tail == [] || Head(tail, ')') || Head(tail, ';')
    ensures Ends(Amps(c) + tail) && !Head(Amps(c) + tail, '|') && (tail != [] ==> !Head(tail, '&'))
  {
    if c.Back? {
      AmpsEnd(c.c, tail);
      AmpsFirst(c);
    } else {
      assert Amps(c) + tail == tail;
    }
  }

  lemma {:induction false} AmpsFirst<W>(c: Cmd<W>)
    requires c.Back?
    ensures Amps(c) != [] && Head(Amps(c), '&')
  {
    if c.c.Back? { AmpsFirst(c.c); }
  }

  // ----- what the parser makes is legal -----

  lemma {:induction false} RedirsLegal<W>(c: Cmd<W>, ts: seq<Token<W>>)
    requires Legal(c)
    ensures Redirs(c, ts).Ok? ==> Legal(Redirs(c, ts).cmd) && (Base(c).Exec? ==> Base(Redirs(c, ts).cmd).Exec?)
    decreases |ts|
  {
    if ts != [] && IsRedir(ts[0]) && |ts| > 1 && ts[1].Word? {
      RedirsLegal(Redir(c, ts[1].w, if Head(ts, '<') then 0 else 1), ts[2..]);
    }
  }

  lemma {:induction false} AddArgLegal<W>(c: Cmd<W>, w: W)
    requires Legal(c) && Base(c).Exec? && Args(c) + 1 < MAXARGS
    ensures Legal(AddArg(c, w)) && Base(AddArg(c, w)).Exec?
  {
    if c.Redir? { AddArgLegal(c.cmd, w); }
  }

  lemma {:induction false} LoopLegal<W>(c: Cmd<W>, ts: seq<Token<W>>)
    requires Legal(c) && Base(c).Exec?
    ensures ExecLoop(c, ts).Ok? ==> Legal(ExecLoop(c, ts).cmd)
    decreases |ts|
  {
    if !(ts == [] || Stops(ts)) && ts[0].Word? && Args(c) + 1 < MAXARGS {
      AddArgLegal(c, ts[0].w);
      RedirsLegal(AddArg(c, ts[0].w), ts[1..]);
      var d := Redirs(AddArg(c, ts[0].w), ts[1..]);
      if d.Ok? { LoopLegal(d.cmd, d.rest); }
    }
  }

  lemma {:induction false} ExecLegal<W>(ts: seq<Token<W>>)
    ensures ParseExec(ts).Ok? ==> Legal(ParseExec(ts).cmd)
    decreases |ts|, 1
  {
    if Head(ts, '(') {
      LineLegal(ts[1..]);
      var e := ParseLine(ts[1..]);
      if e.Ok? && Head(e.rest, ')') { RedirsLegal(e.cmd, e.rest[1..]); }
      assert ParseExec(ts) == ParseBlock(ts);
    } else {
      var none: Cmd<W> := Exec([]);
      RedirsLegal(none, ts);
      var e := Redirs(none, ts);
      if e.Ok? { LoopLegal(e.cmd, e.rest); }
    }
  }

  lemma {:induction false} PipeLegal<W>(ts: seq<Token<W>>)
    ensures ParsePipe(ts).Ok? ==> Legal(ParsePipe(ts).cmd)
    decreases |ts|, 2
  {
    ExecLegal(ts);
    var d := ParseExec(ts);
    if d.Ok? && Head(d.rest, '|') { PipeLegal(d.rest[1..]); }
  }

  lemma {:induction false} BacksLegal<W>(c: Cmd<W>, ts: seq<Token<W>>)
    requires Legal(c)
    ensures Legal(Backs(c, ts).cmd)
    decreases |ts|
  {
    if Head(ts, '&') { BacksLegal(Back(c), ts[1..]); }
  }

  /** Every tree the parser makes has at most nine arguments per command, so it is one the printer can print. */
  lemma {:induction false} LineLegal<W>(ts: seq<Token<W>>)
    ensures ParseLine(ts).Ok? ==> Legal(ParseLine(ts).cmd)
    decreases |ts|, 4
  {
    PipeLegal(ts);
    var d := ParsePipe(ts);
    if d.Ok? {
      BacksLegal(d.cmd, d.rest);
      var b := Backs(d.cmd, d.rest);
      if Head(b.rest, ';') { LineLegal(b.rest[1..]); }
    }
  }

  /** Printing what was parsed and parsing it again changes nothing: the printer's form is canonical. */
  lemma {:induction false} Canonical<W>(ts: seq<Token<W>>)
    requires ParseLine(ts).Ok?
    ensures ParseLine(PrintLine(ParseLine(ts).cmd)) == Ok(ParseLine(ts).cmd, [])
  {
    LineLegal(ts);
    var c := ParseLine(ts).cmd;
    LineRead(c, []);
    assert PrintLine(c) + [] == PrintLine(c);
  }
}
