/**
  The grammar of the shell in `src/user/sh/main.c` as derivations, without a parser: what each piece of
  a line is, the tokens it stands for and the command it means.  The parser accepts exactly the lines
  that have a derivation, and gives the command of the derivation.
 */
module ShellDerivations {
  import opened ShellGrammar

  // ----- the grammar -----

  /** A piece of a simple command: an argument, or a redirection with its operator. */
  datatype Item<W> = Arg(w: W) | Into(op: Token<W>, file: W)

  datatype Deriv<W> =
    | Plain(items: seq<Item<W>>)                                // words and redirections in any order
    | Block(inner: Deriv<W>, redirs: seq<Item<W>>)              // ( line ) and redirections
    | Piped(l: Deriv<W>, r: Deriv<W>)                           // command | pipe
    | Amp(d: Deriv<W>)                                          // pipe & .. &
    | Both(l: Deriv<W>, r: Deriv<W>)                            // .. ; line

  predicate ItemOk<W>(x: Item<W>) {
    x.Into? ==> x.op == Sym('<') || x.op == Sym('>') || x.op == Append
  }

  predicate ItemsOk<W>(xs: seq<Item<W>>) {
    forall i: nat | i < |xs| :: ItemOk(xs[i])
  }

  predicate AllInto<W>(xs: seq<Item<W>>) {
    forall i: nat | i < |xs| :: xs[i].Into?
  }

  predicate IsCommand<W>(d: Deriv<W>)
    decreases d, 0
  {
    || (d.Plain? && ItemsOk(d.items) && |ArgsOf(d.items)| < MAXARGS)
    || (d.Block? && IsLine(d.inner) && ItemsOk(d.redirs) && AllInto(d.redirs))
  }

  predicate IsPipe<W>(d: Deriv<W>)
    decreases d, 1
  {
    if d.Piped? then IsCommand(d.l) && IsPipe(d.r) else IsCommand(d)
  }

  predicate IsJob<W>(d: Deriv<W>)
    decreases d, 2
  {
    if d.Amp? then IsJob(d.d) else IsPipe(d)
  }

  predicate IsLine<W>(d: Deriv<W>)
    decreases d, 3
  {
    if d.Both? then IsJob(d.l) && IsLine(d.r) else IsJob(d)
  }

  // ----- the tokens it stands for -----

  function ItemTokens<W>(xs: seq<Item<W>>): seq<Token<W>> {
    if xs == [] then []
    else (if xs[0].Arg? then [Word(xs[0].w)] else [xs[0].op, Word(xs[0].file)]) + ItemTokens(xs[1..])
  }

  function Yield<W>(d: Deriv<W>): seq<Token<W>> {
    match d
    case Plain(items) => ItemTokens(items)
    case Block(inner, redirs) => [Sym('(')] + Yield(inner) + [Sym(')')] + ItemTokens(redirs)
    case Piped(l, r) => Yield(l) + [Sym('|')] + Yield(r)
    case Amp(e) => Yield(e) + [Sym('&')]
    case Both(l, r) => Yield(l) + [Sym(';')] + Yield(r)
  }

  // ----- the command it means -----

  /** The arguments: the words that no redirection takes, in order. */
  function ArgsOf<W>(xs: seq<Item<W>>): seq<W> {
    if xs == [] then [] else (if xs[0].Arg? then [xs[0].w] else []) + ArgsOf(xs[1..])
  }

  /** The redirections, in order. */
  function IntosOf<W>(xs: seq<Item<W>>): seq<Item<W>> {
    if xs == [] then [] else (if xs[0].Into? then [xs[0]] else []) + IntosOf(xs[1..])
  }

  /** `<` opens the file as standard input, `>` and `>>` as standard output. */
  function Descriptor<W>(op: Token<W>): nat {
    if op == Sym('<') then 0 else 1
  }

  /** Each redirection is around the ones before it. */
  function Wrapped<W>(c: Cmd<W>, xs: seq<Item<W>>): Cmd<W> {
    if xs == [] then c
    else
      var x := xs[|xs| - 1];
      if x.Into? then Redir(Wrapped(c, xs[..|xs| - 1]), x.file, Descriptor(x.op)) else Wrapped(c, xs[..|xs| - 1])
  }

  function Meaning<W>(d: Deriv<W>): Cmd<W> {
    match d
    case Plain(items) => Wrapped(Exec(ArgsOf(items)), IntosOf(items))
    case Block(inner, redirs) => Wrapped(Meaning(inner), redirs)
    case Piped(l, r) => Pipe(Meaning(l), Meaning(r))
    case Amp(e) => Back(Meaning(e))
    case Both(l, r) => List(Meaning(l), Meaning(r))
  }

  ghost predicate Derives<W(!new)>(ts: seq<Token<W>>, c: Cmd<W>) {
    exists d: Deriv<W> :: IsLine(d) && Yield(d) == ts && Meaning(d) == c
  }

  // ----- sequences of items -----

  lemma {:induction false} ItemsConcat<W>(xs: seq<Item<W>>, ys: seq<Item<W>>)
    ensures ItemTokens(xs + ys) == ItemTokens(xs) + ItemTokens(ys)
    ensures ArgsOf(xs + ys) == ArgsOf(xs) + ArgsOf(ys) && IntosOf(xs + ys) == IntosOf(xs) + IntosOf(ys)
  {
    if xs == [] {
      assert xs + ys == ys;
    } else {
      var rest := xs[1..];
      assert (xs + ys)[0] == xs[0] && (xs + ys)[1..] == rest + ys;
      ItemsConcat(rest, ys);
      Assoc(if xs[0].Arg? then [Word(xs[0].w)] else [xs[0].op, Word(xs[0].file)], ItemTokens(rest), ItemTokens(ys));
      Assoc(if xs[0].Arg? then [xs[0].w] else [], ArgsOf(rest), ArgsOf(ys));
      Assoc(if xs[0].Arg? then [] else [xs[0]], IntosOf(rest), IntosOf(ys));
    }
  }

  lemma {:induction false} Assoc<T>(a: seq<T>, b: seq<T>, c: seq<T>)
    ensures a + (b + c) == (a + b) + c
  {
  }

  lemma {:induction false} AllIntos<W>(xs: seq<Item<W>>)
    requires AllInto(xs)
    ensures IntosOf(xs) == xs && ArgsOf(xs) == []
  {
    if xs != [] {
      AllIntos(xs[1..]);
      assert xs == [xs[0]] + xs[1..];
    }
  }

  /** The command of the items so far. */
  function Built<W>(xs: seq<Item<W>>): Cmd<W> {
    Wrapped(Exec(ArgsOf(xs)), IntosOf(xs))
  }

  lemma {:induction false} WrappedMore<W>(c: Cmd<W>, xs: seq<Item<W>>, x: Item<W>)
    ensures Wrapped(c, xs + [x]) == if x.Into? then Redir(Wrapped(c, xs), x.file, Descriptor(x.op)) else Wrapped(c, xs)
  {
    assert (xs + [x])[..|xs|] == xs;
  }

  lemma {:induction false} WrappedArgs<W>(args: seq<W>, xs: seq<Item<W>>, w: W)
    ensures AddArg(Wrapped(Exec(args), xs), w) == Wrapped(Exec(args + [w]), xs)
            && Args(Wrapped(Exec(args), xs)) == |args|
  {
    if xs != [] { WrappedArgs(args, xs[..|xs| - 1], w); }
  }

  /** One more redirection, one more argument. */
  lemma {:induction false} BuiltMore<W>(xs: seq<Item<W>>, x: Item<W>)
    ensures x.Into? ==> Built(xs + [x]) == Redir(Built(xs), x.file, Descriptor(x.op))
    ensures x.Arg? ==> Built(xs + [x]) == AddArg(Built(xs), x.w)
    ensures Args(Built(xs)) == |ArgsOf(xs)| && |ArgsOf(xs + [x])| == |ArgsOf(xs)| + (if x.Arg? then 1 else 0)
  {
    ItemsConcat(xs, [x]);
    assert ArgsOf([x]) == (if x.Arg? then [x.w] else []) && IntosOf([x]) == if x.Into? then [x] else [];
    if x.Into? {
      WrappedMore(Exec(ArgsOf(xs)), IntosOf(xs), x);
      WrappedArgs(ArgsOf(xs), IntosOf(xs), x.file);
      assert ArgsOf(xs) + [] == ArgsOf(xs);
    } else {
      WrappedArgs(ArgsOf(xs), IntosOf(xs), x.w);
      assert IntosOf(xs) + [] == IntosOf(xs);
    }
  }

  /** Redirections are read as they stand. */
  lemma {:induction false} RedirsParsed<W>(c: Cmd<W>, xs: seq<Item<W>>, rest: seq<Token<W>>)
    requires ItemsOk(xs) && AllInto(xs)
    ensures Redirs(c, ItemTokens(xs) + rest) == Redirs(Wrapped(c, xs), rest)
    decreases |xs|
  {
    if xs == [] {
      assert ItemTokens(xs) + rest == rest;
    } else {
      var n := |xs| - 1;
      var init, x := xs[..n], xs[n];
      assert xs == init + [x];
      ItemsConcat(init, [x]);
      var two := [x.op, Word(x.file)];
      assert ItemTokens([x]) == two;
      assert ItemTokens(xs) + rest == ItemTokens(init) + (two + rest);
      RedirsParsed(c, init, two + rest);
      WrappedMore(c, init, x);
      assert ItemOk(x) && (two + rest)[2..] == rest;
    }
  }

  // ----- one step of the parser -----

  lemma {:induction false} RedirsStep<W>(c: Cmd<W>, ts: seq<Token<W>>)
    ensures ts == [] || !IsRedir(ts[0]) ==> Redirs(c, ts) == Ok(c, ts)
    ensures ts != [] && IsRedir(ts[0]) && |ts| > 1 && ts[1].Word? ==>
            Redirs(c, ts) == Redirs(Redir(c, ts[1].w, Descriptor(ts[0])), ts[2..])
    ensures ts != [] && IsRedir(ts[0]) && Redirs(c, ts).Ok? ==> |ts| > 1 && ts[1].Word?
  {
  }

  lemma {:induction false} AfterStep<W>(c: Cmd<W>, ts: seq<Token<W>>)
    ensures Ends(ts) ==> After(c, ts) == Ok(c, ts)
    ensures ts != [] && ts[0].Word? && Args(c) + 1 < MAXARGS ==> After(c, ts) == After(AddArg(c, ts[0].w), ts[1..])
    ensures ts != [] && IsRedir(ts[0]) && |ts| > 1 && ts[1].Word? ==>
            After(c, ts) == After(Redir(c, ts[1].w, Descriptor(ts[0])), ts[2..])
  {
    hide Redirs;
    RedirsStep(c, ts);
  }

  lemma {:induction false} LoopStep<W>(c: Cmd<W>, ts: seq<Token<W>>)
    ensures Ends(ts) ==> ExecLoop(c, ts) == Ok(c, ts)
    ensures !Ends(ts) && ExecLoop(c, ts).Ok? ==>
            ts[0].Word? && Args(c) + 1 < MAXARGS && ExecLoop(c, ts) == After(AddArg(c, ts[0].w), ts[1..])
  {
    hide Redirs;
  }

  lemma {:induction false} ExecStep<W>(ts: seq<Token<W>>)
    ensures !Head(ts, '(') ==> ParseExec(ts) == After(Exec([]), ts)
    ensures Head(ts, '(') ==>
            var p := ParseLine(ts[1..]);
            ParseExec(ts) == if p.Err? || !Head(p.rest, ')') then Err else Redirs(p.cmd, p.rest[1..])
  {
    hide Redirs, ExecLoop, ParseLine;
  }

  lemma {:induction false} PipeStep<W>(ts: seq<Token<W>>)
    ensures var p := ParseExec(ts);
            ParsePipe(ts) == if p.Err? || !Head(p.rest, '|') then p
                             else
                               var q := ParsePipe(p.rest[1..]);
                               if q.Err? then Err else Ok(Pipe(p.cmd, q.cmd), q.rest)
  {
    hide ParseExec;
  }

  lemma {:induction false} LineStep<W>(ts: seq<Token<W>>)
    ensures var p := ParsePipe(ts);
            ParseLine(ts) == if p.Err? then Err
                             else
                               var b := Backs(p.cmd, p.rest);
                               if !Head(b.rest, ';') then b
                               else
                                 var q := ParseLine(b.rest[1..]);
                                 if q.Err? then Err else Ok(List(b.cmd, q.cmd), q.rest)
  {
    hide ParsePipe, Backs;
  }

  // ----- one step of a derivation -----

  lemma {:induction false} PlainIs<W>(xs: seq<Item<W>>)
    ensures Yield(Plain(xs)) == ItemTokens(xs) && Meaning(Plain(xs)) == Built(xs)
    ensures IsCommand(Plain(xs)) <==> ItemsOk(xs) && |ArgsOf(xs)| < MAXARGS
  {
  }

  lemma {:induction false} BlockIs<W>(inner: Deriv<W>, rs: seq<Item<W>>)
    ensures Yield(Block(inner, rs)) == [Sym('(')] + Yield(inner) + [Sym(')')] + ItemTokens(rs)
    ensures Meaning(Block(inner, rs)) == Wrapped(Meaning(inner), rs)
    ensures IsCommand(Block(inner, rs)) <==> IsLine(inner) && ItemsOk(rs) && AllInto(rs)
  {
  }

  lemma {:induction false} PipeIs<W>(l: Deriv<W>, r: Deriv<W>)
    ensures Yield(Piped(l, r)) == Yield(l) + [Sym('|')] + Yield(r)
            && Meaning(Piped(l, r)) == Pipe(Meaning(l), Meaning(r))
    ensures IsPipe(Piped(l, r)) <==> IsCommand(l) && IsPipe(r)
    ensures IsCommand(l) ==> IsPipe(l)
  {
  }

  lemma {:induction false} AmpIs<W>(d: Deriv<W>)
    ensures Yield(Amp(d)) == Yield(d) + [Sym('&')] && Meaning(Amp(d)) == Back(Meaning(d))
    ensures IsJob(Amp(d)) <==> IsJob(d)
    ensures IsPipe(d) ==> IsJob(d)
  {
    if d.Amp? { assert !IsCommand(d); }
  }

  lemma {:induction false} BothIs<W>(l: Deriv<W>, r: Deriv<W>)
    ensures Yield(Both(l, r)) == Yield(l) + [Sym(';')] + Yield(r) && Meaning(Both(l, r)) == List(Meaning(l), Meaning(r))
    ensures IsLine(Both(l, r)) <==> IsJob(l) && IsLine(r)
    ensures IsJob(l) ==> IsLine(l)
  {
    if l.Both? { assert !IsCommand(l) && !IsPipe(l); }
  }

  // ----- every derivation is parsed -----

  /** After some items of a simple command, the others. */
  lemma {:induction false} ItemsParsed<W>(xs: seq<Item<W>>, ys: seq<Item<W>>, rest: seq<Token<W>>)
    requires ItemsOk(ys) && |ArgsOf(xs + ys)| < MAXARGS && Ends(rest)
    ensures After(Built(xs), ItemTokens(ys) + rest) == Ok(Built(xs + ys), rest)
    decreases |ys|
  {
    hide After, Built, AddArg, Args;
    if ys == [] {
      assert ItemTokens(ys) + rest == rest && xs + ys == xs;
      AfterStep(Built(xs), rest);
    } else {
      var y, more := ys[0], ys[1..];
      assert xs + ys == (xs + [y]) + more;
      ItemsParsed(xs + [y], more, rest);
      BuiltMore(xs, y);
      ItemsConcat(xs + [y], more);
      assert ItemOk(y);
      FirstItem(y, more, rest);
      AfterStep(Built(xs), ItemTokens(ys) + rest);
    }
  }

  lemma {:induction false} FirstItem<W>(y: Item<W>, more: seq<Item<W>>, rest: seq<Token<W>>)
    ensures var ts := ItemTokens([y] + more) + rest;
            && (y.Arg? ==> ts != [] && ts[0] == Word(y.w) && ts[1..] == ItemTokens(more) + rest)
            && (y.Into? ==> |ts| > 1 && ts[0] == y.op && ts[1] == Word(y.file) && ts[2..] == ItemTokens(more) + rest)
  {
    assert ([y] + more)[1..] == more;
  }

  lemma {:induction false} PlainParsed<W>(xs: seq<Item<W>>, rest: seq<Token<W>>)
    requires ItemsOk(xs) && |ArgsOf(xs)| < MAXARGS && Ends(rest)
    ensures ParseExec(ItemTokens(xs) + rest) == Ok(Built(xs), rest)
  {
    hide After, ParseExec;
    assert [] + xs == xs;
    ItemsParsed([], xs, rest);
    ExecStep(ItemTokens(xs) + rest);
    NothingBuilt<W>();
    if xs == [] {
      assert ItemTokens(xs) + rest == rest;
    } else {
      FirstItem(xs[0], xs[1..], rest);
      assert [xs[0]] + xs[1..] == xs && ItemOk(xs[0]);
    }
  }

  lemma {:induction false} NothingBuilt<W>()
    ensures Built<W>([]) == Exec([])
  {
  }

  lemma {:induction false} BlockParsed<W>(inner: Deriv<W>, rs: seq<Item<W>>, rest: seq<Token<W>>)
    requires ItemsOk(rs) && AllInto(rs) && Ends(rest)
    requires var more := [Sym(')')] + (ItemTokens(rs) + rest);
             ParseLine(Yield(inner) + more) == Ok(Meaning(inner), more)
    ensures ParseExec(Yield(Block(inner, rs)) + rest) == Ok(Meaning(Block(inner, rs)), rest)
  {
    hide ParseLine, ParseExec, Yield, Meaning, Redirs, ItemTokens, Wrapped;
    var more := [Sym(')')] + (ItemTokens(rs) + rest);
    BlockIs(inner, rs);
    var ts := Yield(Block(inner, rs)) + rest;
    assert ts == [Sym('(')] + (Yield(inner) + more);
    assert ts[1..] == Yield(inner) + more && more[1..] == ItemTokens(rs) + rest;
    ExecStep(ts);
    RedirsParsed(Meaning(inner), rs, rest);
    RedirsEnd(Wrapped(Meaning(inner), rs), rest);
  }

  lemma {:induction false} CommandParsed<W>(d: Deriv<W>, rest: seq<Token<W>>)
    requires IsCommand(d) && Ends(rest)
    ensures ParseExec(Yield(d) + rest) == Ok(Meaning(d), rest)
    decreases d, 0
  {
    hide ParseExec, Yield, Meaning, ParseLine;
    if d.Plain? {
      PlainIs(d.items);
      PlainParsed(d.items, rest);
    } else {
      LineParsed(d.inner, [Sym(')')] + (ItemTokens(d.redirs) + rest));
      BlockParsed(d.inner, d.redirs, rest);
    }
  }

  lemma {:induction false} PipeParsed<W>(d: Deriv<W>, rest: seq<Token<W>>)
    requires IsPipe(d) && Ends(rest) && !Head(rest, '|')
    ensures ParsePipe(Yield(d) + rest) == Ok(Meaning(d), rest)
    decreases d, 1
  {
    hide ParseExec, ParsePipe, Yield, Meaning, IsCommand;
    if d.Piped? {
      var more := [Sym('|')] + (Yield(d.r) + rest);
      PipeIs(d.l, d.r);
      CommandParsed(d.l, more);
      PipeParsed(d.r, rest);
      PipeStep(Yield(d.l) + more);
      assert Yield(d) + rest == Yield(d.l) + more && more[1..] == Yield(d.r) + rest;
    } else {
      CommandParsed(d, rest);
      PipeStep(Yield(d) + rest);
    }
  }

  /** A job leaves the parser at the `&` loop with what follows. */
  lemma {:induction false} JobParsed<W>(d: Deriv<W>, rest: seq<Token<W>>)
    requires IsJob(d) && Ends(rest) && !Head(rest, '|')
    ensures var p := ParsePipe(Yield(d) + rest); p.Ok? && Backs(p.cmd, p.rest) == Backs(Meaning(d), rest)
    decreases d, 2
  {
    hide ParsePipe, Yield, Meaning, IsPipe;
    if d.Amp? {
      var more := [Sym('&')] + rest;
      AmpIs(d.d);
      JobParsed(d.d, more);
      assert Yield(d) + rest == Yield(d.d) + more && more[1..] == rest;
    } else {
      PipeParsed(d, rest);
    }
  }

  lemma {:induction false} LineParsed<W>(d: Deriv<W>, rest: seq<Token<W>>)
    requires IsLine(d) && (rest == [] || Head(rest, ')'))
    ensures ParseLine(Yield(d) + rest) == Ok(Meaning(d), rest)
    decreases d, 3
  {
    hide ParseLine, ParsePipe, Yield, Meaning, IsJob;
    if d.Both? {
      var more := [Sym(';')] + (Yield(d.r) + rest);
      BothIs(d.l, d.r);
      JobParsed(d.l, more);
      LineParsed(d.r, rest);
      assert Yield(d) + rest == Yield(d.l) + more && more[1..] == Yield(d.r) + rest;
      LineStep(Yield(d) + rest);
    } else {
      JobParsed(d, rest);
      LineStep(Yield(d) + rest);
    }
  }

  // ----- whatever is parsed has a derivation -----

  lemma {:induction false} RedirsDerived<W>(c: Cmd<W>, ts: seq<Token<W>>) returns (xs: seq<Item<W>>)
    requires Redirs(c, ts).Ok?
    ensures ItemsOk(xs) && AllInto(xs) && ts == ItemTokens(xs) + Redirs(c, ts).rest
    ensures Redirs(c, ts).cmd == Wrapped(c, xs)
    ensures var r := Redirs(c, ts).rest; r == [] || !IsRedir(r[0])
    decreases |ts|
  {
    hide Redirs, Wrapped, ItemTokens;
    RedirsStep(c, ts);
    if ts == [] || !IsRedir(ts[0]) {
      xs := [];
      NoItems(c);
      assert ts == [] + ts;
    } else {
      var x := Into(ts[0], ts[1].w);
      var more := RedirsDerived(Redir(c, x.file, Descriptor(x.op)), ts[2..]);
      xs := [x] + more;
      WrappedFirst(c, x, more);
      ItemsConcat([x], more);
      OneItem(x);
      assert ts == [ts[0], ts[1]] + ts[2..];
      assert ItemOk(x);
    }
  }

  lemma {:induction false} NoItems<W>(c: Cmd<W>)
    ensures ItemTokens<W>([]) == [] && Wrapped(c, []) == c
  {
  }

  lemma {:induction false} OneItem<W>(x: Item<W>)
    ensures ItemTokens([x]) == if x.Arg? then [Word(x.w)] else [x.op, Word(x.file)]
  {
  }

  lemma {:induction false} WrappedFirst<W>(c: Cmd<W>, x: Item<W>, xs: seq<Item<W>>)
    requires x.Into?
    ensures Wrapped(c, [x] + xs) == Wrapped(Redir(c, x.file, Descriptor(x.op)), xs)
  {
    if xs == [] {
      assert [x] + xs == [] + [x];
      WrappedMore(c, [], x);
    } else {
      var n := |xs| - 1;
      assert [x] + xs == ([x] + xs[..n]) + [xs[n]];
      WrappedFirst(c, x, xs[..n]);
      WrappedMore(c, [x] + xs[..n], xs[n]);
    }
  }

  lemma {:induction false} BuiltIntos<W>(xs: seq<Item<W>>, ys: seq<Item<W>>)
    requires AllInto(ys)
    ensures Built(xs + ys) == Wrapped(Built(xs), ys) && |ArgsOf(xs + ys)| == |ArgsOf(xs)|
    decreases |ys|
  {
    if ys == [] {
      assert xs + ys == xs;
    } else {
      var n := |ys| - 1;
      BuiltIntos(xs, ys[..n]);
      assert xs + ys == (xs + ys[..n]) + [ys[n]];
      BuiltMore(xs + ys[..n], ys[n]);
    }
  }

  lemma {:induction false} ItemsDerived<W>(xs: seq<Item<W>>, ts: seq<Token<W>>) returns (ys: seq<Item<W>>)
    requires After(Built(xs), ts).Ok? && |ArgsOf(xs)| < MAXARGS
    ensures ItemsOk(ys) && |ArgsOf(xs + ys)| < MAXARGS && ts == ItemTokens(ys) + After(Built(xs), ts).rest
    ensures After(Built(xs), ts).cmd == Built(xs + ys)
    decreases |ts|
  {
    hide Redirs, ExecLoop, Built, ItemTokens, ArgsOf, AddArg, Args, Wrapped;
    var p := Redirs(Built(xs), ts);
    ys := RedirsDerived(Built(xs), ts);
    BuiltIntos(xs, ys);
    LoopStep(p.cmd, p.rest);
    if !Ends(p.rest) {
      var rs, y := ys, Arg(p.rest[0].w);
      BuiltMore(xs + rs, y);
      var more := ItemsDerived(xs + rs + [y], p.rest[1..]);
      ys := rs + ([y] + more);
      ItemsConcat(rs, [y] + more);
      ItemsConcat([y], more);
      OneItem(y);
      assert xs + rs + [y] + more == xs + ys;
      assert p.rest == [p.rest[0]] + p.rest[1..];
    }
  }

  lemma {:induction false} CommandDerived<W>(ts: seq<Token<W>>) returns (d: Deriv<W>)
    requires ParseExec(ts).Ok?
    ensures IsCommand(d) && ts == Yield(d) + ParseExec(ts).rest && Meaning(d) == ParseExec(ts).cmd
    decreases |ts|, 1
  {
    hide Redirs, ParseLine, ParseExec, After, Yield, Meaning, IsCommand, IsLine, ItemTokens, Wrapped, Built, ArgsOf;
    ExecStep(ts);
    if Head(ts, '(') {
      var inner := LineDerived(ts[1..]);
      var p := ParseLine(ts[1..]);
      var rs := RedirsDerived(p.cmd, p.rest[1..]);
      d := Block(inner, rs);
      BlockIs(inner, rs);
      assert ts == [ts[0]] + ts[1..] && p.rest == [p.rest[0]] + p.rest[1..];
    } else {
      NothingBuilt<W>();
      NoArgs<W>();
      var xs := ItemsDerived([], ts);
      assert [] + xs == xs;
      d := Plain(xs);
      PlainIs(xs);
    }
  }

  lemma {:induction false} NoArgs<W>()
    ensures ArgsOf<W>([]) == []
  {
  }

  lemma {:induction false} PipeDerived<W>(ts: seq<Token<W>>) returns (d: Deriv<W>)
    requires ParsePipe(ts).Ok?
    ensures IsPipe(d) && ts == Yield(d) + ParsePipe(ts).rest && Meaning(d) == ParsePipe(ts).cmd
    decreases |ts|, 2
  {
    hide ParseExec, ParsePipe, Yield, Meaning, IsCommand, IsPipe;
    PipeStep(ts);
    d := CommandDerived(ts);
    PipeIs(d, d);
    var p := ParseExec(ts);
    if Head(p.rest, '|') {
      var r := PipeDerived(p.rest[1..]);
      assert p.rest == [p.rest[0]] + p.rest[1..];
      PipeIs(d, r);
      d := Piped(d, r);
    }
  }

  lemma {:induction false} BacksDerived<W>(d: Deriv<W>, ts: seq<Token<W>>) returns (e: Deriv<W>)
    requires IsJob(d)
    ensures IsJob(e) && Yield(d) + ts == Yield(e) + Backs(Meaning(d), ts).rest
            && Meaning(e) == Backs(Meaning(d), ts).cmd
    decreases |ts|
  {
    hide Yield, Meaning, IsJob;
    if Head(ts, '&') {
      assert ts == [ts[0]] + ts[1..];
      AmpIs(d);
      e := BacksDerived(Amp(d), ts[1..]);
    } else {
      e := d;
    }
  }

  lemma {:induction false} LineDerived<W>(ts: seq<Token<W>>) returns (d: Deriv<W>)
    requires ParseLine(ts).Ok?
    ensures IsLine(d) && ts == Yield(d) + ParseLine(ts).rest && Meaning(d) == ParseLine(ts).cmd
    decreases |ts|, 4
  {
    hide ParsePipe, ParseLine, Backs, Yield, Meaning, IsPipe, IsJob, IsLine;
    LineStep(ts);
    var p := ParsePipe(ts);
    d := PipeDerived(ts);
    AmpIs(d);
    d := BacksDerived(d, p.rest);
    BothIs(d, d);
    var b := Backs(p.cmd, p.rest);
    if Head(b.rest, ';') {
      var r := LineDerived(b.rest[1..]);
      assert b.rest == [b.rest[0]] + b.rest[1..];
      BothIs(d, r);
      d := Both(d, r);
    }
  }

  // ----- the parser is right -----

  /** The front of ts is redirections, all there are, and d is c with them around it. */
  ghost predicate Redirected<W(!new)>(c: Cmd<W>, ts: seq<Token<W>>, d: Cmd<W>, rest: seq<Token<W>>) {
    && (rest == [] || !IsRedir(rest[0]))
    && exists xs: seq<Item<W>> :: ItemsOk(xs) && AllInto(xs) && ItemTokens(xs) + rest == ts && Wrapped(c, xs) == d
  }

  lemma {:induction false} RedirsExact<W(!new)>(c: Cmd<W>, ts: seq<Token<W>>, d: Cmd<W>, rest: seq<Token<W>>)
    ensures Redirs(c, ts) == Ok(d, rest) <==> Redirected(c, ts, d, rest)
  {
    hide Redirs;
    if Redirs(c, ts) == Ok(d, rest) {
      var xs := RedirsDerived(c, ts);
    }
    if Redirected(c, ts, d, rest) {
      var xs :| ItemsOk(xs) && AllInto(xs) && ItemTokens(xs) + rest == ts && Wrapped(c, xs) == d;
      RedirsParsed(c, xs, rest);
      RedirsStep(d, rest);
    }
  }

  /**
    Before the end of the input or a closing parenthesis, which is all that the shell lets follow a
    line: the parser gives a command if and only if the tokens derive it.
   */
  lemma {:induction false} LineExact<W(!new)>(ts: seq<Token<W>>, rest: seq<Token<W>>, c: Cmd<W>)
    requires rest == [] || Head(rest, ')')
    ensures ParseLine(ts + rest) == Ok(c, rest) <==> Derives(ts, c)
  {
    if Derives(ts, c) {
      var d: Deriv<W> :| IsLine(d) && Yield(d) == ts && Meaning(d) == c;
      LineParsed(d, rest);
    }
    if ParseLine(ts + rest) == Ok(c, rest) {
      var d := LineDerived(ts + rest);
      SameFront(ts, Yield(d), rest);
    }
  }

  lemma {:induction false} SameFront<T>(a: seq<T>, b: seq<T>, rest: seq<T>)
    requires a + rest == b + rest
    ensures a == b
  {
    assert |a| == |b|;
    assert a == (a + rest)[..|a|] && b == (b + rest)[..|b|];
  }

  /** So no line means two commands. */
  lemma {:induction false} Unambiguous<W(!new)>(ts: seq<Token<W>>, c: Cmd<W>, d: Cmd<W>)
    requires Derives(ts, c) && Derives(ts, d)
    ensures c == d
  {
    LineExact(ts, [], c);
    LineExact(ts, [], d);
  }
}
