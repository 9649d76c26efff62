/**
  What the trees of the shell's parser say: the line that a command prints to, parsed, gives the
  command back, and after `nulterminate` every pointer reads as its own word.
 */
module ShellText {
  import opened ShellGrammar
  import opened Shell

  // ----- places in the line and the words they hold -----

  /** A span of word characters that ends where no word character is. */
  predicate SpanOk(s: string, p: Span) {
    && p.q < p.eq <= |s| && (p.eq < |s| ==> !WordChar(s[p.eq]))
    && forall k: nat | p.q <= k < p.eq :: WordChar(s[k])
  }

  predicate Says(s: string, p: Span, w: string) {
    SpanOk(s, p) && s[p.q..p.eq] == w
  }

  predicate SaysToken(s: string, t: Token<Span>, u: Token<string>) {
    match t
    case Word(p) => u.Word? && Says(s, p, u.w)
    case Sym(c) => u.Sym? && u.c == c
    case Append => u.Append?
  }

  predicate SaysAll(s: string, ps: seq<Span>, ws: seq<string>) {
    |ps| == |ws| && forall i: nat | i < |ps| :: Says(s, ps[i], ws[i])
  }

  predicate SaysCmd(s: string, c: Cmd<Span>, d: Cmd<string>) {
    match c
    case Exec(ps) => d.Exec? && SaysAll(s, ps, d.args)
    case Redir(b, p, fd) => d.Redir? && SaysCmd(s, b, d.cmd) && Says(s, p, d.file) && fd == d.fd
    case Pipe(l, r) => d.Pipe? && SaysCmd(s, l, d.l) && SaysCmd(s, r, d.r)
    case List(l, r) => d.List? && SaysCmd(s, l, d.l) && SaysCmd(s, r, d.r)
    case Back(b) => d.Back? && SaysCmd(s, b, d.c)
  }

  predicate SaysTokens(s: string, ts: seq<Token<Span>>, us: seq<Token<string>>) {
    |ts| == |us| && forall i: nat | i < |ts| :: SaysToken(s, ts[i], us[i])
  }

  predicate SaysRes(s: string, r: Res<Span>, q: Res<string>) {
    if r.Err? then q.Err? else q.Ok? && SaysCmd(s, r.cmd, q.cmd) && SaysTokens(s, r.rest, q.rest)
  }

  // ----- the parser does the same to places as to words -----

  lemma {:induction false} HeadSays(s: string, ts: seq<Token<Span>>, us: seq<Token<string>>, k: nat)
    requires SaysTokens(s, ts, us) && k <= |ts|
    ensures SaysTokens(s, ts[k..], us[k..])
    ensures forall c :: Head(ts, c) == Head(us, c)
    ensures ts != [] ==> SaysToken(s, ts[0], us[0]) && IsRedir(ts[0]) == IsRedir(us[0])
  {
    if ts != [] { assert SaysToken(s, ts[0], us[0]); }
  }

  lemma {:induction false} RedirsSays(s: string, c: Cmd<Span>, d: Cmd<string>, ts: seq<Token<Span>>,
                                      us: seq<Token<string>>)
    requires SaysCmd(s, c, d) && SaysTokens(s, ts, us)
    ensures SaysRes(s, Redirs(c, ts), Redirs(d, us))
    decreases |ts|
  {
    HeadSays(s, ts, us, 0);
    if ts != [] && IsRedir(ts[0]) && |ts| > 1 {
      assert SaysToken(s, ts[1], us[1]);
      if ts[1].Word? {
        HeadSays(s, ts, us, 2);
        var fd := if Head(ts, '<') then 0 else 1;
        RedirsSays(s, Redir(c, ts[1].w, fd), Redir(d, us[1].w, fd), ts[2..], us[2..]);
      }
    }
  }

  lemma {:induction false} AddArgSays(s: string, c: Cmd<Span>, d: Cmd<string>, p: Span, w: string)
    requires SaysCmd(s, c, d) && Says(s, p, w)
    ensures SaysCmd(s, AddArg(c, p), AddArg(d, w)) && Args(c) == Args(d)
  {
    if c.Redir? { AddArgSays(s, c.cmd, d.cmd, p, w); }
  }

  lemma {:induction false} ArgsSays(s: string, c: Cmd<Span>, d: Cmd<string>)
    requires SaysCmd(s, c, d)
    ensures Args(c) == Args(d)
  {
    if c.Redir? { ArgsSays(s, c.cmd, d.cmd); }
  }

  lemma {:induction false} LoopSays(s: string, c: Cmd<Span>, d: Cmd<string>, ts: seq<Token<Span>>,
                                    us: seq<Token<string>>)
    requires SaysCmd(s, c, d) && SaysTokens(s, ts, us)
    ensures SaysRes(s, ExecLoop(c, ts), ExecLoop(d, us))
    decreases |ts|
  {
    HeadSays(s, ts, us, 0);
    ArgsSays(s, c, d);
    if !(ts == [] || Stops(ts)) && ts[0].Word? && Args(c) + 1 < MAXARGS {
      AddArgSays(s, c, d, ts[0].w, us[0].w);
      HeadSays(s, ts, us, 1);
      RedirsSays(s, AddArg(c, ts[0].w), AddArg(d, us[0].w), ts[1..], us[1..]);
      var a, b := Redirs(AddArg(c, ts[0].w), ts[1..]), Redirs(AddArg(d, us[0].w), us[1..]);
      if a.Ok? { LoopSays(s, a.cmd, b.cmd, a.rest, b.rest); }
    }
  }

  lemma {:induction false} ExecSays(s: string, ts: seq<Token<Span>>, us: seq<Token<string>>)
    requires SaysTokens(s, ts, us)
    ensures SaysRes(s, ParseExec(ts), ParseExec(us))
    decreases |ts|, 1
  {
    HeadSays(s, ts, us, 0);
    if Head(ts, '(') {
      HeadSays(s, ts, us, 1);
      LineSays(s, ts[1..], us[1..]);
      var a, b := ParseLine(ts[1..]), ParseLine(us[1..]);
      if a.Ok? {
        HeadSays(s, a.rest, b.rest, 0);
        if Head(a.rest, ')') {
          HeadSays(s, a.rest, b.rest, 1);
          RedirsSays(s, a.cmd, b.cmd, a.rest[1..], b.rest[1..]);
        }
      }
      assert ParseExec(ts) == ParseBlock(ts) && ParseExec(us) == ParseBlock(us);
    } else {
      RedirsSays(s, Exec([]), Exec([]), ts, us);
      var a, b := Redirs(Exec([]), ts), Redirs(Exec([]), us);
      if a.Ok? { LoopSays(s, a.cmd, b.cmd, a.rest, b.rest); }
    }
  }

  lemma {:induction false} PipeSays(s: string, ts: seq<Token<Span>>, us: seq<Token<string>>)
    requires SaysTokens(s, ts, us)
    ensures SaysRes(s, ParsePipe(ts), ParsePipe(us))
    decreases |ts|, 2
  {
    ExecSays(s, ts, us);
    var a, b := ParseExec(ts), ParseExec(us);
    if a.Ok? {
      HeadSays(s, a.rest, b.rest, 0);
      if Head(a.rest, '|') {
        HeadSays(s, a.rest, b.rest, 1);
        PipeSays(s, a.rest[1..], b.rest[1..]);
      }
    }
  }

  lemma {:induction false} BacksSays(s: string, c: Cmd<Span>, d: Cmd<string>, ts: seq<Token<Span>>,
                                     us: seq<Token<string>>)
    requires SaysCmd(s, c, d) && SaysTokens(s, ts, us)
    ensures SaysRes(s, Backs(c, ts), Backs(d, us))
    decreases |ts|
  {
    HeadSays(s, ts, us, 0);
    if Head(ts, '&') {
      HeadSays(s, ts, us, 1);
      BacksSays(s, Back(c), Back(d), ts[1..], us[1..]);
    }
  }

  lemma {:induction false} LineSays(s: string, ts: seq<Token<Span>>, us: seq<Token<string>>)
    requires SaysTokens(s, ts, us)
    ensures SaysRes(s, ParseLine(ts), ParseLine(us))
    decreases |ts|, 4
  {
    PipeSays(s, ts, us);
    var a, b := ParsePipe(ts), ParsePipe(us);
    assert ParseLine(ts) == LineRest(a, |ts|) && ParseLine(us) == LineRest(b, |us|);
    if a.Ok? {
      BacksSays(s, a.cmd, b.cmd, a.rest, b.rest);
      var e, f := Backs(a.cmd, a.rest), Backs(b.cmd, b.rest);
      HeadSays(s, e.rest, f.rest, 0);
      if Head(e.rest, ';') {
        HeadSays(s, e.rest, f.rest, 1);
        LineSays(s, e.rest[1..], f.rest[1..]);
      }
    }
  }

  // ----- writing tokens out and reading them -----

  predicate LegalWord(w: string) {
    w != [] && forall i: nat | i < |w| :: WordChar(w[i])
  }

  predicate LegalToken(t: Token<string>) {
    match t
    case Word(w) => LegalWord(w)
    case Sym(c) => Symbol(c)
    case Append => true
  }

  predicate LegalTokens(ts: seq<Token<string>>) {
    forall i: nat | i < |ts| :: LegalToken(ts[i])
  }

  function Chars(t: Token<string>): string {
    match t
    case Word(w) => " " + w
    case Sym(c) => [' ', c]
    case Append => " >>"
  }

  /** Every token with a space before it. */
  function Render(ts: seq<Token<string>>): string {
    if ts == [] then "" else Chars(ts[0]) + Render(ts[1..])
  }

  lemma {:induction false} RenderStarts(ts: seq<Token<string>>)
    ensures Render(ts) == "" <==> ts == []
    ensures ts != [] ==> Render(ts)[0] == ' '
  {
    if ts != [] { assert Chars(ts[0])[0] == ' '; }
  }

  lemma {:induction false} WordEndIs(s: string, i: nat, e: nat)
    requires i <= e <= |s| && (forall k: nat | i <= k < e :: WordChar(s[k])) && (e < |s| ==> s[e] == ' ')
    ensures WordEnd(s, i) == e
    decreases e - i
  {
    if i < e { WordEndIs(s, i + 1, e); }
  }

  /** One token, with a space or the end of the line behind it. */
  lemma {:induction false} TokenRead(s: string, i: nat, t: Token<string>)
    requires LegalToken(t) && i + |Chars(t)| <= |s| && s[i..i + |Chars(t)|] == Chars(t)
    requires i + |Chars(t)| < |s| ==> s[i + |Chars(t)|] == ' '
    ensures Skip(s, i) == i + 1 && TokenEnd(s, i + 1) == i + |Chars(t)| && SaysToken(s, TokenAt(s, i + 1), t)
  {
    var cs, e := Chars(t), i + |Chars(t)|;
    assert forall k: nat | k < |cs| :: s[i + k] == s[i..e][k];
    assert s[i] == cs[0] == ' ' && s[i + 1] == cs[1];
    assert Skip(s, i) == Skip(s, i + 1);
    if t.Word? {
      WordRead(s, i, t.w);
    } else if t.Append? {
      assert s[i + 2] == cs[2];
    }
  }

  lemma {:induction false} WordRead(s: string, i: nat, w: string)
    requires LegalToken(Word(w)) && i + 1 + |w| <= |s| && s[i..i + 1 + |w|] == [' '] + w
    requires i + 1 + |w| < |s| ==> s[i + 1 + |w|] == ' '
    ensures Skip(s, i + 1) == i + 1 && TokenEnd(s, i + 1) == i + 1 + |w| && SaysToken(s, TokenAt(s, i + 1), Word(w))
  {
    var e := i + 1 + |w|;
    forall k: nat | i + 1 <= k < e ensures s[k] == w[k - i - 1] && WordChar(s[k]) {
      assert s[k] == s[i..e][k - i] == ([' '] + w)[k - i];
    }
    WordEndIs(s, i + 2, e);
    assert s[i + 1..e] == w;
  }

  lemma {:induction false} LexRender(pre: string, ts: seq<Token<string>>)
    requires LegalTokens(ts)
    ensures SaysTokens(pre + Render(ts), Lex(pre + Render(ts), |pre|), ts)
    decreases |ts|
  {
    var s := pre + Render(ts);
    if ts == [] {
      assert s == pre;
    } else {
      var cs, rest := Chars(ts[0]), ts[1..];
      var e := |pre| + |cs|;
      assert s == (pre + cs) + Render(rest);
      RenderStarts(rest);
      assert s[|pre|..e] == cs;
      TokenRead(s, |pre|, ts[0]);
      LexRender(pre + cs, rest);
      LexStep(s, |pre|, e, ts[0], rest);
    }
  }

  /** One token more in front. */
  lemma {:induction false} LexStep(s: string, i: nat, e: nat, t: Token<string>, rest: seq<Token<string>>)
    requires i < |s| && Skip(s, i) == i + 1 < |s| && TokenEnd(s, i + 1) == e && SaysToken(s, TokenAt(s, i + 1), t)
    requires e <= |s| && SaysTokens(s, Lex(s, e), rest)
    ensures SaysTokens(s, Lex(s, i), [t] + rest)
  {
    assert Lex(s, i) == [TokenAt(s, i + 1)] + Lex(s, e);
  }

  // ----- what the tokens of a line are, however it is spaced -----

  function Spell(t: Token<string>): string {
    match t
    case Word(w) => w
    case Sym(c) => [c]
    case Append => ">>"
  }

  /** A token and the blanks before it. */
  datatype Lexeme = Lexeme(gap: string, t: Token<string>)

  function Laid(ls: seq<Lexeme>, tail: string): string {
    if ls == [] then tail else ls[0].gap + Spell(ls[0].t) + Laid(ls[1..], tail)
  }

  function TokensOf(ls: seq<Lexeme>): (ts: seq<Token<string>>)
    ensures |ts| == |ls| && forall i: nat | i < |ls| :: ts[i] == ls[i].t
  {
    seq(|ls|, i requires 0 <= i < |ls| => ls[i].t)
  }

  predicate Blank(s: string) {
    forall i: nat | i < |s| :: Space(s[i])
  }

  /** Without blanks between them these two would be one token, or others. */
  predicate Glued(a: Token<string>, b: Token<string>) {
    (a.Word? && b.Word?) || (a == Sym('>') && (b == Sym('>') || b.Append?))
  }

  predicate LayoutOk(ls: seq<Lexeme>, tail: string) {
    && Blank(tail)
    && (forall i: nat | i < |ls| :: Blank(ls[i].gap) && LegalToken(ls[i].t))
    && (forall i: nat, j: nat | i < |ls| && j == i + 1 && j < |ls| && Glued(ls[i].t, ls[j].t) :: ls[j].gap != "")
  }

  ghost predicate Spells(s: string, ts: seq<Token<string>>) {
    exists ls, tail :: LayoutOk(ls, tail) && Laid(ls, tail) == s && TokensOf(ls) == ts
  }

  lemma {:induction false} SkipTo(s: string, i: nat, j: nat)
    requires i <= j <= |s| && (forall k: nat | i <= k < j :: Space(s[k])) && (j < |s| ==> !Space(s[j]))
    ensures Skip(s, i) == j
    decreases j - i
  {
    if i < j { SkipTo(s, i + 1, j); }
  }

  /** What must not stand right behind a token. */
  predicate Clean(s: string, e: nat, t: Token<string>) {
    e < |s| ==> (t.Word? ==> Space(s[e]) || Symbol(s[e])) && (t == Sym('>') ==> s[e] != '>')
  }

  lemma {:induction false} WordTo(s: string, i: nat, e: nat)
    requires i <= e <= |s| && (forall k: nat | i <= k < e :: WordChar(s[k]))
             && (e < |s| ==> Space(s[e]) || Symbol(s[e]))
    ensures WordEnd(s, i) == e
    decreases e - i
  {
    if i < e { WordTo(s, i + 1, e); }
  }

  lemma {:induction false} SpelledAt(s: string, j: nat, t: Token<string>)
    requires LegalToken(t) && j + |Spell(t)| <= |s| && s[j..j + |Spell(t)|] == Spell(t) && Clean(s, j + |Spell(t)|, t)
    ensures j < |s| && !Space(s[j]) && TokenEnd(s, j) == j + |Spell(t)| && SaysToken(s, TokenAt(s, j), t)
  {
    var cs, e := Spell(t), j + |Spell(t)|;
    assert forall k: nat | k < |cs| :: s[j + k] == s[j..e][k];
    assert s[j] == cs[0];
    if t.Word? {
      forall k: nat | j <= k < e ensures s[k] == t.w[k - j] && WordChar(s[k]) { assert s[j + (k - j)] == cs[k - j]; }
      WordTo(s, j + 1, e);
    } else if t.Append? {
      assert s[j + 1] == cs[1];
    }
  }

  /** The first character of what follows a token. */
  lemma {:induction false} TextStarts(ls: seq<Lexeme>, tail: string, t: Token<string>)
    requires LayoutOk(ls, tail) && (ls != [] && Glued(t, ls[0].t) ==> ls[0].gap != "") && LegalToken(t)
    ensures Clean(Laid(ls, tail), 0, t)
  {
    if ls != [] {
      var x := ls[0];
      assert Blank(x.gap) && LegalToken(x.t);
      var text := Laid(ls, tail);
      if x.gap != "" { assert text[0] == x.gap[0]; } else { assert text[0] == Spell(x.t)[0]; }
    }
  }

  lemma {:induction false} LayoutRest(ls: seq<Lexeme>, tail: string)
    requires LayoutOk(ls, tail) && ls != []
    ensures LayoutOk(ls[1..], tail) && Blank(ls[0].gap) && LegalToken(ls[0].t)
    ensures |ls| > 1 && Glued(ls[0].t, ls[1].t) ==> ls[1].gap != ""
  {
    var r := ls[1..];
    forall i: nat, j: nat | i < |r| && j == i + 1 && j < |r| && Glued(r[i].t, r[j].t) ensures r[j].gap != "" {
      assert r[i] == ls[i + 1] && r[j] == ls[j + 1];
    }
  }

  lemma {:induction false} LexLayout(pre: string, ls: seq<Lexeme>, tail: string)
    requires LayoutOk(ls, tail)
    ensures SaysTokens(pre + Laid(ls, tail), Lex(pre + Laid(ls, tail), |pre|), TokensOf(ls))
    decreases |ls|
  {
    hide LayoutOk, Spell, SaysTokens, Lex, Skip, TokenEnd, TokenAt, SaysToken, LegalToken;
    var s := pre + Laid(ls, tail);
    if ls == [] {
      LayoutTail(tail);
      forall k: nat | |pre| <= k < |s| ensures Space(s[k]) { assert s[k] == tail[k - |pre|]; }
      SkipTo(s, |pre|, |s|);
      LexNone(s, |pre|);
    } else {
      LayoutRest(ls, tail);
      var x, rest := ls[0], ls[1..];
      var j := |pre| + |x.gap|;
      var e := j + |Spell(x.t)|;
      var front := pre + x.gap + Spell(x.t);
      LaidFirst(pre, x, Laid(rest, tail));
      TextStarts(rest, tail, x.t);
      SpelledAt(s, j, x.t);
      SkipTo(s, |pre|, j);
      LexLayout(front, rest, tail);
      LexFirst(s, |pre|, j, e, x.t, TokensOf(rest));
      assert TokensOf(ls) == [x.t] + TokensOf(rest);
    }
  }

  lemma {:induction false} LaidFirst(pre: string, x: Lexeme, text: string)
    requires Blank(x.gap)
    ensures var s, j := pre + (x.gap + Spell(x.t) + text), |pre| + |x.gap|;
            var e := j + |Spell(x.t)|;
            && s == (pre + x.gap + Spell(x.t)) + text && e <= |s| && s[j..e] == Spell(x.t)
            && (forall k: nat | |pre| <= k < j :: Space(s[k]))
            && (e < |s| ==> text != "" && s[e] == text[0])
  {
    var s := pre + (x.gap + Spell(x.t) + text);
    forall k: nat | |pre| <= k < |pre| + |x.gap| ensures Space(s[k]) { assert s[k] == x.gap[k - |pre|]; }
  }

  lemma {:induction false} LayoutTail(tail: string)
    requires LayoutOk([], tail)
    ensures Blank(tail)
  {
  }

  lemma {:induction false} LexNone(s: string, i: nat)
    requires i <= |s| && Skip(s, i) == |s|
    ensures SaysTokens(s, Lex(s, i), [])
  {
  }

  lemma {:induction false} LexFirst(s: string, i: nat, j: nat, e: nat, t: Token<string>, rest: seq<Token<string>>)
    requires i <= |s| && Skip(s, i) == j < |s| && TokenEnd(s, j) == e <= |s| && SaysToken(s, TokenAt(s, j), t)
    requires SaysTokens(s, Lex(s, e), rest)
    ensures SaysTokens(s, Lex(s, i), [t] + rest)
  {
    assert Lex(s, i) == [TokenAt(s, j)] + Lex(s, e);
  }

  /** The token in the text. */
  function Read(s: string, t: Token<Span>): Token<string> {
    match t
    case Word(p) => Word(if p.q <= p.eq <= |s| then s[p.q..p.eq] else "")
    case Sym(c) => Sym(c)
    case Append => Append
  }

  lemma {:induction false} TokenSpelled(s: string, j: nat)
    requires LineOk(s) && j < |s| && !Space(s[j])
    ensures var t, e := Read(s, TokenAt(s, j)), TokenEnd(s, j);
            LegalToken(t) && Spell(t) == s[j..e] && Clean(s, e, t)
  {
    var e := TokenEnd(s, j);
    if TokenAt(s, j).Word? {
      var w := s[j..e];
      forall k: nat | k < |w| ensures WordChar(w[k]) { assert w[k] == s[j + k]; }
    } else if TokenAt(s, j).Append? {
      assert s[j..e] == ">>";
    }
  }

  /** Every line can be laid out. */
  lemma {:induction false} LayoutExists(s: string, i: nat) returns (ls: seq<Lexeme>, tail: string)
    requires LineOk(s) && i <= |s|
    ensures LayoutOk(ls, tail) && Laid(ls, tail) == s[i..]
    decreases |s| - i
  {
    hide LayoutOk, Skip, TokenEnd, TokenAt, Read, Spell, Glued, LegalToken, Laid, Clean, LineOk;
    var j := Skip(s, i);
    if j == |s| {
      ls, tail := [], s[i..];
      LaidNone(tail);
    } else {
      var e := TokenEnd(s, j);
      TokenSpelled(s, j);
      var x := Lexeme(s[i..j], Read(s, TokenAt(s, j)));
      var more;
      more, tail := LayoutExists(s, e);
      ls := [x] + more;
      if more != [] { NotGlued(s, e, x.t, more, tail); }
      LayoutMore(x, more, tail);
      LaidMore(x, more, tail);
      assert s[i..] == s[i..j] + s[j..e] + s[e..];
    }
  }

  lemma {:induction false} LaidNone(tail: string)
    requires Blank(tail)
    ensures LayoutOk([], tail) && Laid([], tail) == tail
  {
  }

  lemma {:induction false} LaidMore(x: Lexeme, ls: seq<Lexeme>, tail: string)
    ensures Laid([x] + ls, tail) == x.gap + Spell(x.t) + Laid(ls, tail)
  {
    assert ([x] + ls)[1..] == ls;
  }

  lemma {:induction false} NotGlued(s: string, e: nat, t: Token<string>, ls: seq<Lexeme>, tail: string)
    requires LayoutOk(ls, tail) && ls != [] && e <= |s| && Laid(ls, tail) == s[e..] && Clean(s, e, t)
    ensures Glued(t, ls[0].t) ==> ls[0].gap != ""
  {
    var u := ls[0].t;
    assert LegalToken(u);
    if ls[0].gap == "" {
      assert Laid(ls, tail)[0] == Spell(u)[0];
      assert s[e] == s[e..][0];
    }
  }

  lemma {:induction false} LayoutMore(x: Lexeme, ls: seq<Lexeme>, tail: string)
    requires LayoutOk(ls, tail) && Blank(x.gap) && LegalToken(x.t)
             && (ls != [] && Glued(x.t, ls[0].t) ==> ls[0].gap != "")
    ensures LayoutOk([x] + ls, tail)
  {
    var r := [x] + ls;
    forall i: nat | i < |r| ensures Blank(r[i].gap) && LegalToken(r[i].t) { if i > 0 { assert r[i] == ls[i - 1]; } }
    forall i: nat, j: nat | i < |r| && j == i + 1 && j < |r| && Glued(r[i].t, r[j].t) ensures r[j].gap != "" {
      if i > 0 { assert r[i] == ls[i - 1] && r[j] == ls[i]; }
    }
  }

  /**
    The lexer reads a line as these tokens if and only if the line spells them, with any blanks
    where blanks may be.
   */
  lemma {:induction false} LexExact(s: string, ts: seq<Token<string>>)
    requires LineOk(s)
    ensures SaysTokens(s, Lex(s, 0), ts) <==> Spells(s, ts)
  {
    if Spells(s, ts) {
      var ls, tail :| LayoutOk(ls, tail) && Laid(ls, tail) == s && TokensOf(ls) == ts;
      LexLayout("", ls, tail);
      assert "" + Laid(ls, tail) == s;
    }
    if SaysTokens(s, Lex(s, 0), ts) {
      var ls, tail := LayoutExists(s, 0);
      LexLayout("", ls, tail);
      assert "" + Laid(ls, tail) == s && s[0..] == s;
      SaysOnce(s, Lex(s, 0), ts, TokensOf(ls));
    }
  }

  lemma {:induction false} SaysOnce(s: string, ts: seq<Token<Span>>, us: seq<Token<string>>, vs: seq<Token<string>>)
    requires SaysTokens(s, ts, us) && SaysTokens(s, ts, vs)
    ensures us == vs
  {
    forall i: nat | i < |us| ensures us[i] == vs[i] { assert SaysToken(s, ts[i], us[i]) && SaysToken(s, ts[i], vs[i]); }
  }

  // ----- every legal command can be written and read -----

  /** Words that the lexer keeps together, everywhere in the tree. */
  predicate Writable(c: Cmd<string>) {
    match c
    case Exec(args) => forall i: nat | i < |args| :: LegalWord(args[i])
    case Redir(d, f, _) => Writable(d) && LegalWord(f)
    case Pipe(l, r) => Writable(l) && Writable(r)
    case List(l, r) => Writable(l) && Writable(r)
    case Back(d) => Writable(d)
  }

  lemma {:induction false} PrintedExec(c: Cmd<string>)
    requires Writable(c)
    ensures LegalTokens(PrintExec(c))
    decreases c, Rank(c, 0)
  {
    match c
    case Exec(args) =>
    case Redir(d, f, fd) => PrintedExec(d);
    case _ => PrintedLine(c);
  }

  lemma {:induction false} PrintedPipe(c: Cmd<string>)
    requires Writable(c)
    ensures LegalTokens(PrintPipe(c))
    decreases c, Rank(c, 1)
  {
    if c.Pipe? {
      PrintedExec(c.l);
      PrintedPipe(c.r);
    } else {
      PrintedExec(c);
    }
  }

  lemma {:induction false} PrintedBack(c: Cmd<string>)
    requires Writable(c)
    ensures LegalTokens(PrintBack(c))
    decreases c, Rank(c, 2)
  {
    if c.Back? { PrintedBack(c.c); } else { PrintedPipe(c); }
  }

  lemma {:induction false} PrintedLine(c: Cmd<string>)
    requires Writable(c)
    ensures LegalTokens(PrintLine(c))
    decreases c, Rank(c, 3)
  {
    if c.List? {
      PrintedBack(c.l);
      PrintedLine(c.r);
    } else {
      PrintedBack(c);
    }
  }

  lemma {:induction false} RenderNoNul(ts: seq<Token<string>>)
    requires LegalTokens(ts)
    ensures LineOk(Render(ts))
  {
    if ts != [] {
      assert LegalTokens(ts[1..]) && LegalToken(ts[0]);
      RenderNoNul(ts[1..]);
      assert LineOk(Chars(ts[0]));
    }
  }

  /** Parsing the line that a command prints to gives a tree whose places say exactly that command. */
  lemma {:induction false} RoundTrip(c: Cmd<string>)
    requires Legal(c) && Writable(c)
    ensures var s := Render(PrintLine(c));
            LineOk(s) && Whole(ParseLine(Lex(s, 0))).Tree? && SaysCmd(s, Whole(ParseLine(Lex(s, 0))).cmd, c)
  {
    var us := PrintLine(c);
    var s := Render(us);
    PrintedLine(c);
    RenderNoNul(us);
    LexRender("", us);
    assert "" + Render(us) == s;
    LineSays(s, Lex(s, 0), us);
    LineRead(c, []);
    assert us + [] == us;
  }

  // ----- nulterminate -----

  /** Where `nulterminate` writes. */
  function EndsOf(c: Cmd<Span>): set<nat> {
    match c
    case Exec(ps) => set i: nat | i < |ps| :: ps[i].eq
    case Redir(d, p, _) => EndsOf(d) + {p.eq}
    case Pipe(l, r) => EndsOf(l) + EndsOf(r)
    case List(l, r) => EndsOf(l) + EndsOf(r)
    case Back(d) => EndsOf(d)
  }

  /** Every place in the tree is a word of the line. */
  predicate SpansOk(s: string, c: Cmd<Span>) {
    match c
    case Exec(ps) => forall i: nat | i < |ps| :: SpanOk(s, ps[i])
    case Redir(d, p, _) => SpansOk(s, d) && SpanOk(s, p)
    case Pipe(l, r) => SpansOk(s, l) && SpansOk(s, r)
    case List(l, r) => SpansOk(s, l) && SpansOk(s, r)
    case Back(d) => SpansOk(s, d)
  }

  ghost predicate Cut(before: seq<char>, after: seq<char>, ends: set<nat>) {
    |after| == |before| && forall k: nat | k < |before| :: after[k] == if k in ends then NUL else before[k]
  }

  method NulTerminate(buf: array<char>, c: Cmd<Span>, ghost s: string)
    requires buf.Length == |s| + 1 && SpansOk(s, c)
    modifies buf
    ensures Cut(old(buf[..]), buf[..], EndsOf(c))
    decreases c
  {
    match c
    case Exec(ps) =>
      var i := 0;
      while i < |ps|
        invariant i <= |ps|
        invariant forall k: nat | k < buf.Length ::
                  buf[k] == if exists j: nat :: j < i && ps[j].eq == k then NUL else old(buf[k])
      {
        assert SpanOk(s, ps[i]);
        buf[ps[i].eq] := NUL;
        i := i + 1;
      }
    case Redir(d, p, _) =>
      NulTerminate(buf, d, s);
      buf[p.eq] := NUL;
    case Pipe(l, r) =>
      NulTerminate(buf, l, s);
      NulTerminate(buf, r, s);
    case List(l, r) =>
      NulTerminate(buf, l, s);
      NulTerminate(buf, r, s);
    case Back(d) => NulTerminate(buf, d, s);
  }

  /** The C string at q. */
  function CString(buf: seq<char>, q: nat): string
    requires q <= |buf|
    decreases |buf| - q
  {
    if q == |buf| || buf[q] == NUL then "" else [buf[q]] + CString(buf, q + 1)
  }

  lemma {:induction false} CStringIs(buf: seq<char>, q: nat, e: nat)
    requires q <= e < |buf| && buf[e] == NUL && forall k: nat | q <= k < e :: buf[k] != NUL
    ensures CString(buf, q) == buf[q..e]
    decreases e - q
  {
    if q < e {
      CStringIs(buf, q + 1, e);
      assert buf[q..e] == [buf[q]] + buf[q + 1..e];
    }
  }

  /** No place where `nulterminate` writes holds a word character. */
  lemma {:induction false} EndsAreGaps(s: string, c: Cmd<Span>, k: nat)
    requires SpansOk(s, c) && k in EndsOf(c)
    ensures k <= |s| && (k < |s| ==> !WordChar(s[k]))
    decreases c
  {
    match c
    case Exec(ps) => var i: nat :| i < |ps| && ps[i].eq == k; assert SpanOk(s, ps[i]);
    case Redir(d, p, _) => if k in EndsOf(d) { EndsAreGaps(s, d, k); }
    case Pipe(l, r) => if k in EndsOf(l) { EndsAreGaps(s, l, k); } else { EndsAreGaps(s, r, k); }
    case List(l, r) => if k in EndsOf(l) { EndsAreGaps(s, l, k); } else { EndsAreGaps(s, r, k); }
    case Back(d) => EndsAreGaps(s, d, k);
  }

  /**
    After `nulterminate`, the pointer to any word of the line that ends at one of the written places
    reads that word, whole.
   */
  lemma {:induction false} Terminated(s: string, c: Cmd<Span>, after: seq<char>, p: Span)
    requires LineOk(s) && SpansOk(s, c) && Cut(s + [NUL], after, EndsOf(c)) && SpanOk(s, p) && p.eq in EndsOf(c)
    ensures CString(after, p.q) == s[p.q..p.eq]
  {
    var buf := s + [NUL];
    forall k: nat | p.q <= k < p.eq ensures after[k] == s[k] && after[k] != NUL {
      if k in EndsOf(c) { EndsAreGaps(s, c, k); }
    }
    assert after[p.eq] == NUL;
    CStringIs(after, p.q, p.eq);
  }

  /** p is one of the tree's argument or file places. */
  predicate Occurs(c: Cmd<Span>, p: Span) {
    match c
    case Exec(ps) => p in ps
    case Redir(d, f, _) => Occurs(d, p) || p == f
    case Pipe(l, r) => Occurs(l, p) || Occurs(r, p)
    case List(l, r) => Occurs(l, p) || Occurs(r, p)
    case Back(d) => Occurs(d, p)
  }

  lemma {:induction false} OccursOk(s: string, c: Cmd<Span>, p: Span)
    requires SpansOk(s, c) && Occurs(c, p)
    ensures SpanOk(s, p) && p.eq in EndsOf(c)
    decreases c
  {
    match c
    case Exec(ps) => var i: nat :| i < |ps| && ps[i] == p; assert ps[i].eq in EndsOf(c);
    case Redir(d, f, _) => if Occurs(d, p) { OccursOk(s, d, p); }
    case Pipe(l, r) => if Occurs(l, p) { OccursOk(s, l, p); } else { OccursOk(s, r, p); }
    case List(l, r) => if Occurs(l, p) { OccursOk(s, l, p); } else { OccursOk(s, r, p); }
    case Back(d) => OccursOk(s, d, p);
  }

  lemma {:induction false} SaysSpans(s: string, c: Cmd<Span>, d: Cmd<string>)
    requires SaysCmd(s, c, d)
    ensures SpansOk(s, c)
    decreases c
  {
    match c
    case Exec(ps) => forall i: nat | i < |ps| ensures SpanOk(s, ps[i]) { assert Says(s, ps[i], d.args[i]); }
    case Redir(b, _, _) => SaysSpans(s, b, d.cmd);
    case Pipe(l, r) => SaysSpans(s, l, d.l); SaysSpans(s, r, d.r);
    case List(l, r) => SaysSpans(s, l, d.l); SaysSpans(s, r, d.r);
    case Back(b) => SaysSpans(s, b, d.c);
  }

  function Text(s: string, t: Token<Span>): Token<string>
    requires t.Word? ==> SpanOk(s, t.w)
  {
    match t
    case Word(p) => Word(s[p.q..p.eq])
    case Sym(c) => Sym(c)
    case Append => Append
  }

  /** The words of the line, in order. */
  function Texts(s: string, ts: seq<Token<Span>>): (us: seq<Token<string>>)
    requires forall i: nat | i < |ts| && ts[i].Word? :: SpanOk(s, ts[i].w)
    ensures SaysTokens(s, ts, us)
  {
    seq(|ts|, i requires 0 <= i < |ts| && (ts[i].Word? ==> SpanOk(s, ts[i].w)) => Text(s, ts[i]))
  }

  lemma {:induction false} LexSpans(s: string, i: nat)
    requires LineOk(s) && i <= |s|
    ensures forall k: nat | k < |Lex(s, i)| && Lex(s, i)[k].Word? :: SpanOk(s, Lex(s, i)[k].w)
    decreases |s| - i
  {
    var j := Skip(s, i);
    if j < |s| {
      LexSpans(s, TokenEnd(s, j));
      assert Lex(s, i) == [TokenAt(s, j)] + Lex(s, TokenEnd(s, j));
    }
  }

  /** Whatever the line, after parsing and `nulterminate` each argument and file pointer reads exactly its token. */
  lemma {:induction false} PointersRead(s: string, after: seq<char>, p: Span)
    requires LineOk(s) && Whole(ParseLine(Lex(s, 0))).Tree?
    requires var c := Whole(ParseLine(Lex(s, 0))).cmd; Cut(s + [NUL], after, EndsOf(c)) && Occurs(c, p)
    ensures p.q <= p.eq <= |s| && CString(after, p.q) == s[p.q..p.eq] && LegalWord(s[p.q..p.eq])
  {
    var ts := Lex(s, 0);
    var c := ParseLine(ts).cmd;
    LexSpans(s, 0);
    LineSays(s, ts, Texts(s, ts));
    SaysSpans(s, c, ParseLine(Texts(s, ts)).cmd);
    OccursOk(s, c, p);
    Terminated(s, c, after, p);
  }
}
