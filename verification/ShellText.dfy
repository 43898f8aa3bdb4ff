/** Lines as text: which tokens a text has, and that the parser of user/sh.c reads back what is written. */
module ShellText {
  import opened Shell
  import opened ShellGrammar

  predicate Blanks(g: string) {
    forall k :: 0 <= k < |g| ==> IsBlank(g[k])
  }

  predicate WordOk(w: string) {
    |w| > 0 && forall k :: 0 <= k < |w| ==> IsPlain(w[k])
  }

  predicate LexemeOk(x: Lexeme) {
    match x
    case Sign(c) => IsSymbol(c)
    case Twice => true
    case Name(w) => WordOk(w)
  }

  function Letters(x: Lexeme): string {
    match x
    case Sign(c) => [c]
    case Twice => ">>"
    case Name(w) => w
  }

  // Written without a blank between them, the two would read as something else.
  predicate Sticks(x: Lexeme, y: Lexeme) {
    (x.Name? && y.Name?) || (x == Sign('>') && (y == Sign('>') || y == Twice))
  }

  // The tokens ts with the blanks gaps before, between and behind them.
  function TextOf(ts: seq<Lexeme>, gaps: seq<string>): string
    requires |gaps| == |ts| + 1
  {
    if ts == [] then gaps[0] else gaps[0] + (Letters(ts[0]) + TextOf(ts[1..], gaps[1..]))
  }

  ghost predicate Fits(ts: seq<Lexeme>, gaps: seq<string>) {
    && |gaps| == |ts| + 1
    && (forall k :: 0 <= k < |gaps| ==> Blanks(gaps[k]))
    && (forall k :: 0 <= k < |ts| ==> LexemeOk(ts[k]))
    && (forall k :: 0 <= k < |ts| - 1 && gaps[k + 1] == "" ==> !Sticks(ts[k], ts[k + 1]))
  }

  lemma {:induction false} FitsRest(ts: seq<Lexeme>, gaps: seq<string>)
    requires Fits(ts, gaps) && ts != []
    ensures Fits(ts[1..], gaps[1..]) && Blanks(gaps[0]) && LexemeOk(ts[0])
    ensures |ts| > 1 && gaps[1] == "" ==> !Sticks(ts[0], ts[1])
  {
    var us, hs := ts[1..], gaps[1..];
    forall k | 0 <= k < |us| - 1 && hs[k + 1] == "" ensures !Sticks(us[k], us[k + 1]) {
      assert gaps[(k + 1) + 1] == "";
    }
  }

  ghost predicate TextAt(s: string, p: int, x: string) {
    0 <= p <= |s| && s[p..] == x
  }

  lemma {:induction false} TextSplit(s: string, p: int, a: string, b: string, q: int)
    requires TextAt(s, p, a + b) && q == p + |a|
    ensures TextAt(s, q, b) && q <= |s| && s[p..q] == a
  {
    assert s[p..][|a|..] == (a + b)[|a|..] == b;
    assert s[p..][|a|..] == s[q..];
    assert s[p..][..|a|] == (a + b)[..|a|] == a;
  }

  lemma {:induction false} SkipGap(s: string, p: int, q: int)
    requires 0 <= p <= q <= |s| && Blanks(s[p..q]) && (q < |s| ==> !IsBlank(s[q]))
    ensures Skip(s, p) == q
  {
    forall k | p <= k < q ensures IsBlank(s[k]) {
      assert s[p..q][k - p] == s[k];
    }
  }

  // The character that follows a token: a blank, the next token's first, or none.
  lemma {:induction false} NextChar(s: string, e: int, ts: seq<Lexeme>, gaps: seq<string>)
    requires Fits(ts, gaps) && TextAt(s, e, TextOf(ts, gaps)) && e < |s|
    ensures if gaps[0] != "" then IsBlank(s[e]) else ts != [] && s[e] == Letters(ts[0])[0]
  {
    assert s[e] == s[e..][0];
  }

  lemma {:induction false} NextPlain(s: string, e: int, x: Lexeme, ts: seq<Lexeme>, gaps: seq<string>)
    requires Fits(ts, gaps) && TextAt(s, e, TextOf(ts, gaps)) && (ts != [] && gaps[0] == "" ==> !Sticks(x, ts[0]))
    ensures x.Name? && e < |s| ==> !IsPlain(s[e])
    ensures x == Sign('>') && e < |s| ==> s[e] != '>'
  {
    if e < |s| {
      NextChar(s, e, ts, gaps);
    }
  }

  // One token written at q and ending at e.
  lemma {:induction false} LexOne(s: string, p: int, q: int, x: Lexeme, e: int)
    requires 0 <= p <= q < e <= |s| && Skip(s, p) == q && s[q..e] == Letters(x) && LexemeOk(x)
    requires x.Name? && e < |s| ==> !IsPlain(s[e])
    requires x == Sign('>') && e < |s| ==> s[e] != '>'
    ensures TokenAt(s, p, Lex(s, p), x) && Lex(s, p).next == Skip(s, e) && Lex(s, p).span == Span(q, e)
  {
    assert s[q] == s[q..e][0];
    match x
    case Sign(c) =>
    case Twice => assert s[q + 1] == s[q..e][1];
    case Name(w) => WordEndIs(s, q, e);
  }

  lemma {:induction false} WordEndIs(s: string, q: int, e: int)
    requires 0 <= q <= e <= |s| && (forall k :: 0 <= k < |s[q..e]| ==> IsPlain(s[q..e][k]))
             && (e < |s| ==> !IsPlain(s[e]))
    ensures WordEnd(s, q) == e
  {
    forall k | q <= k < e ensures IsPlain(s[k]) {
      assert s[q..e][k - q] == s[k];
    }
  }

  /** The tokens of a text are those it is written with, however many blanks stand between them, and none where none is
      needed. */
  lemma {:induction false} TextToks(s: string, p: int, ts: seq<Lexeme>, gaps: seq<string>)
    requires Fits(ts, gaps) && TextAt(s, p, TextOf(ts, gaps))
    ensures Toks(s, p) == ts
    decreases |ts|
  {
    if ts == [] {
      SkipGap(s, p, |s|);
      ToksStep(s, p);
    } else {
      var x, ts', gaps' := ts[0], ts[1..], gaps[1..];
      var q := p + |gaps[0]|;
      var e := q + |Letters(x)|;
      FitsRest(ts, gaps);
      TextSplit(s, p, gaps[0], Letters(x) + TextOf(ts', gaps'), q);
      TextSplit(s, q, Letters(x), TextOf(ts', gaps'), e);
      NextPlain(s, e, x, ts', gaps');
      assert s[q] == Letters(x)[0] by { assert s[q..e][0] == s[q]; }
      SkipGap(s, p, q);
      LexOne(s, p, q, x, e);
      TextToks(s, e, ts', gaps');
      TokThen(s, p, x, e, ts');
    }
  }

  lemma {:induction false} TokThen(s: string, p: int, x: Lexeme, e: int, ts: seq<Lexeme>)
    requires 0 <= p <= |s| && 0 <= e <= |s| && TokenAt(s, p, Lex(s, p), x) && Lex(s, p).next == Skip(s, e)
             && Toks(s, e) == ts
    ensures Toks(s, p) == [x] + ts
  {
    SkipToks(s, e);
    ToksStep(s, p);
  }

  /** Every text is one of its own tokens. */
  lemma {:induction false} ToksText(s: string, p: int) returns (gaps: seq<string>)
    requires 0 <= p <= |s|
    ensures Fits(Toks(s, p), gaps) && TextAt(s, p, TextOf(Toks(s, p), gaps)) && gaps[0] == s[p..Skip(s, p)]
    decreases |s| - p
  {
    var q, t := Skip(s, p), Lex(s, p);
    ToksStep(s, p);
    if t.tok == End {
      gaps := [s[p..q]];
    } else {
      var e, x := t.span.eq, LexemeOf(s, t);
      LexedText(s, p, t, x, e);
      var gaps' := ToksText(s, e);
      gaps := [s[p..q]] + gaps';
      SkipToks(s, e);
      FirstChar(s, e, x, Toks(s, e), gaps');
      Prepended(s, p, q, x, e, Toks(s, e), gaps', Toks(s, p), gaps);
    }
  }

  lemma {:induction false} LexedText(s: string, p: int, t: Lexed, x: Lexeme, e: int)
    requires 0 <= p <= |s| && t == Lex(s, p) && t.tok != End && x == LexemeOf(s, t) && e == t.span.eq
    ensures t.span.q == Skip(s, p) < e <= |s| && s[Skip(s, p)..e] == Letters(x) && LexemeOk(x) && t.next == Skip(s, e)
    ensures x.Name? && e < |s| ==> !IsPlain(s[e])
    ensures x == Sign('>') && e < |s| ==> s[e] != '>'
  {
  }

  // No two tokens stick together.
  lemma {:induction false} FirstChar(s: string, e: int, x: Lexeme, ts: seq<Lexeme>, gaps: seq<string>)
    requires 0 <= e <= |s| && ts == Toks(s, e) && Fits(ts, gaps) && gaps[0] == s[e..Skip(s, e)]
    requires x.Name? && e < |s| ==> !IsPlain(s[e])
    requires x == Sign('>') && e < |s| ==> s[e] != '>'
    ensures ts != [] && gaps[0] == "" ==> !Sticks(x, ts[0])
  {
    if ts != [] && gaps[0] == "" {
      ToksStep(s, e);
      LexedText(s, e, Lex(s, e), ts[0], Lex(s, e).span.eq);
      assert s[e] == s[e..Lex(s, e).span.eq][0];
    }
  }

  lemma {:induction false} Prepended(s: string, p: int, q: int, x: Lexeme, e: int, ts: seq<Lexeme>, gaps: seq<string>,
                                     ts': seq<Lexeme>, gaps': seq<string>)
    requires 0 <= p <= q <= e <= |s| && Blanks(s[p..q]) && s[q..e] == Letters(x) && LexemeOk(x)
    requires Fits(ts, gaps) && TextAt(s, e, TextOf(ts, gaps)) && (ts != [] && gaps[0] == "" ==> !Sticks(x, ts[0]))
    requires ts' == [x] + ts && gaps' == [s[p..q]] + gaps
    ensures Fits(ts', gaps') && TextAt(s, p, TextOf(ts', gaps'))
  {
    assert ts'[1..] == ts && gaps'[1..] == gaps;
    assert s[p..] == s[p..q] + (s[q..e] + s[e..]);
    forall k | 0 <= k < |ts'| - 1 && gaps'[k + 1] == "" ensures !Sticks(ts'[k], ts'[k + 1]) {
      if k > 0 {
        assert gaps[(k - 1) + 1] == "";
      }
    }
  }

  // ----- Lines -----

  /** What is written is read: a line of the grammar, in any spacing, parses to its meaning. */
  lemma {:induction false} LineReads(x: Src, gaps: seq<string>, s: string)
    requires IsLine(x) && Fits(Spell(x), gaps) && s == TextOf(Spell(x), gaps)
    ensures Parse(s).Ok? && Read(s, Parse(s).cmd) == Mean(x)
  {
    assert s[0..] == s;
    TextToks(s, 0, Spell(x), gaps);
    ParseComplete(s, x);
  }

  /** And nothing else is accepted: a line that parses is a line of the grammar in some spacing. */
  lemma {:induction false} LineWritten(s: string) returns (x: Src, gaps: seq<string>)
    requires Parse(s).Ok?
    ensures IsLine(x) && Fits(Spell(x), gaps) && s == TextOf(Spell(x), gaps) && Read(s, Parse(s).cmd) == Mean(x)
  {
    x := ParseSound(s);
    gaps := ToksText(s, 0);
    assert s[0..] == s;
  }

  // ----- Every tree can be written -----

  // The tree with everything in parentheses.
  function Parens(t: Cmd<string>): Src {
    match t
    case Exec(argv) => Simple(seq(|argv|, k requires 0 <= k < |argv| => Arg(argv[k])))
    case Redir(c, f, kind) => Group(Parens(c), [(f, kind)])
    case Pipe(l, r) => Bar(Group(Parens(l), []), Group(Parens(r), []))
    case List(l, r) => Semi(Group(Parens(l), []), Group(Parens(r), []))
    case Back(c) => Amp(Group(Parens(c), []))
  }

  // At most nine words to a command.
  predicate Printable(t: Cmd<string>) {
    match t
    case Exec(argv) => |argv| < MAXARGS
    case Redir(c, _, _) => Printable(c)
    case Pipe(l, r) => Printable(l) && Printable(r)
    case List(l, r) => Printable(l) && Printable(r)
    case Back(c) => Printable(c)
  }

  lemma {:induction false} ArgsOnly(argv: seq<string>, items: seq<Item>)
    requires |items| == |argv| && forall k :: 0 <= k < |argv| ==> items[k] == Arg(argv[k])
    ensures Args(items) == argv && Files(items) == []
    decreases |argv|
  {
    if argv != [] {
      ArgsOnly(argv[1..], items[1..]);
    }
  }

  lemma {:induction false} ParensMean(t: Cmd<string>)
    requires Printable(t)
    ensures IsLine(Parens(t)) && Mean(Parens(t)) == t
  {
    match t
    case Exec(argv) =>
      ArgsOnly(argv, Parens(t).items);
      assert IsUnit(Parens(t)) && IsPipe(Parens(t)) && IsJob(Parens(t));
    case Redir(c, f, kind) =>
      ParensMean(c);
      assert IsUnit(Parens(t)) && IsPipe(Parens(t)) && IsJob(Parens(t));
      assert [(f, kind)][..0] == [];
      assert Redirected(Mean(Parens(c)), [(f, kind)]) == Redir(Redirected(Mean(Parens(c)), []), f, kind);
    case Pipe(l, r) =>
      ParensMean(l);
      ParensMean(r);
      assert IsUnit(Parens(t).left) && IsUnit(Parens(t).right) && IsPipe(Parens(t).right);
      assert IsPipe(Parens(t)) && IsJob(Parens(t));
    case List(l, r) =>
      ParensMean(l);
      ParensMean(r);
      assert IsUnit(Parens(t).left) && IsPipe(Parens(t).left) && IsJob(Parens(t).left);
      assert IsUnit(Parens(t).right) && IsPipe(Parens(t).right) && IsJob(Parens(t).right);
    case Back(c) =>
      ParensMean(c);
      assert IsUnit(Parens(t).job) && IsPipe(Parens(t).job) && IsJob(Parens(t).job);
  }

  /** Every command tree is read back from its parenthesised text, in any spacing. */
  lemma {:induction false} RoundTrip(t: Cmd<string>, gaps: seq<string>, s: string)
    requires Printable(t) && Fits(Spell(Parens(t)), gaps) && s == TextOf(Spell(Parens(t)), gaps)
    ensures Parse(s).Ok? && Read(s, Parse(s).cmd) == t
  {
    ParensMean(t);
    LineReads(Parens(t), gaps, s);
  }

  // ----- What an error means -----

  predicate IsOp(x: Lexeme) {
    x == Sign('<') || x == Sign('>') || x == Twice
  }

  // An operator with no file name behind it.
  ghost predicate NoName(ts: seq<Lexeme>) {
    exists k :: 0 <= k < |ts| && IsOp(ts[k]) && (k + 1 == |ts| || !ts[k + 1].Name?)
  }

  // A parenthesis right behind a word.
  ghost predicate WordParen(ts: seq<Lexeme>) {
    exists k :: 0 <= k < |ts| - 1 && ts[k].Name? && ts[k + 1] == Sign('(')
  }

  // Ten words with nothing but redirections between them.
  ghost predicate TenWords(ts: seq<Lexeme>) {
    exists a, items, b :: |Args(items)| == MAXARGS && ts == Around(a, items, b)
  }

  function Around(a: seq<Lexeme>, items: seq<Item>, b: seq<Lexeme>): seq<Lexeme> {
    a + (SpellItems(items) + b)
  }

  // A parenthesis, a line, and then no closing parenthesis.
  ghost predicate Unclosed(ts: seq<Lexeme>) {
    exists a, x, b :: IsLine(x) && !Heads(b, ")") && ts == Opened(a, x, b)
  }

  function Opened(a: seq<Lexeme>, x: Src, b: seq<Lexeme>): seq<Lexeme> {
    a + ([Sign('(')] + (Spell(x) + b))
  }

  ghost predicate Explains(e: Error, ts: seq<Lexeme>) {
    match e
    case MissingFile => NoName(ts)
    case Syntax => WordParen(ts)
    case TooManyArgs => TenWords(ts)
    case MissingParen => Unclosed(ts)
    case Leftovers => exists x, b :: IsLine(x) && b != [] && ts == Spell(x) + b
  }

  // What explains an error in the rest of a line explains it in the line.
  lemma {:induction false} ExplainsMore(e: Error, a: seq<Lexeme>, ts: seq<Lexeme>)
    requires Explains(e, ts) && e != Leftovers
    ensures Explains(e, a + ts)
  {
    var us := a + ts;
    match e
    case MissingFile =>
      var k :| 0 <= k < |ts| && IsOp(ts[k]) && (k + 1 == |ts| || !ts[k + 1].Name?);
      assert IsOp(us[|a| + k]) && (|a| + k + 1 == |us| || !us[|a| + k + 1].Name?);
    case Syntax =>
      var k :| 0 <= k < |ts| - 1 && ts[k].Name? && ts[k + 1] == Sign('(');
      assert us[|a| + k].Name? && us[|a| + k + 1] == Sign('(');
    case TooManyArgs =>
      var b, items, c :| |Args(items)| == MAXARGS && ts == Around(b, items, c);
      assert us == Around(a + b, items, c);
    case MissingParen =>
      var b, x, c :| IsLine(x) && !Heads(c, ")") && ts == Opened(b, x, c);
      assert us == Opened(a + b, x, c);
  }

  lemma {:induction false} RedirsError(s: string, p: int)
    requires 0 <= p <= |s| && ParseRedirs(s, p) == NoFile
    ensures Explains(MissingFile, Toks(s, p))
    decreases |s| - p
  {
    var op := Lex(s, p);
    var file := Lex(s, op.next);
    if file.tok != Word {
      OpAlone(s, p, op, file);
    } else {
      RedirsError(s, file.next);
      RedirToks(s, p, op, file, Toks(s, file.next));
      ExplainsMore(MissingFile, [OpSign(KindOf(op.tok)), Name(Text(s, file.span))], Toks(s, file.next));
    }
  }

  lemma {:induction false} OpAlone(s: string, p: int, op: Lexed, file: Lexed)
    requires 0 <= p <= |s| && Peek(s, p, "<>") && op == Lex(s, p) && file == Lex(s, op.next) && file.tok != Word
    ensures Explains(MissingFile, Toks(s, p))
  {
    var ts := Toks(s, p);
    OpIs(s, p);
    ToksStep(s, p);
    ToksStep(s, op.next);
    assert IsOp(ts[0]) && (0 + 1 == |ts| || !ts[0 + 1].Name?);
  }

  // The words and redirections before p, and then an argument loop that fails.
  lemma {:induction false} ArgsError(s: string, p: int, argv: seq<Span>, files: seq<(Span, Kind)>, prior: seq<Item>)
    requires 0 <= p <= |s| && ParseArgs(s, p, argv, files).Err? && |Args(prior)| == |argv| < MAXARGS
    requires !Heads(Toks(s, p), "<>") && (prior == [] ==> !Heads(Toks(s, p), "("))
    ensures Explains(ParseArgs(s, p, argv, files).error, SpellItems(prior) + Toks(s, p))
            && ParseArgs(s, p, argv, files).error != Leftovers
    decreases |s| - p
  {
    var t, ts := Lex(s, p), Toks(s, p);
    if t.tok != Word {
      ParenError(s, p, t, prior);
    } else {
      var prior1 := OneMore(s, p, t, prior);
      if |argv| + 1 >= MAXARGS {
        assert SpellItems(prior) + ts == Around([], prior1, Toks(s, t.next));
      } else if ParseRedirs(s, t.next) == NoFile {
        RedirsError(s, t.next);
        ExplainsMore(MissingFile, SpellItems(prior1), Toks(s, t.next));
      } else {
        var fs, rest := RedirsSound(s, t.next);
        var r := ParseRedirs(s, t.next);
        ArgUnfold(s, p, t, argv, files, r);
        MoreItems(prior1, Tos(fs));
        TosAll(fs);
        ArgsError(s, r.pos, argv + [t.span], files + r.files, prior1 + Tos(fs));
        PlusPlus(SpellItems(prior1), SpellFiles(fs), rest);
      }
    }
  }

  // A word added to those before.
  lemma {:induction false} OneMore(s: string, p: int, t: Lexed, prior: seq<Item>) returns (prior1: seq<Item>)
    requires 0 <= p <= |s| && t == Lex(s, p) && t.tok == Word
    ensures prior1 != [] && |Args(prior1)| == |Args(prior)| + 1
    ensures SpellItems(prior) + Toks(s, p) == SpellItems(prior1) + Toks(s, t.next)
  {
    var w := Text(s, t.span);
    prior1 := prior + [Arg(w)];
    MoreItems(prior, [Arg(w)]);
    assert SpellItems([Arg(w)]) == [Name(w)] && Args([Arg(w)]) == [w];
    ToksStep(s, p);
    PlusPlus(SpellItems(prior), [Name(w)], Toks(s, t.next));
  }

  lemma {:induction false} ParenError(s: string, p: int, t: Lexed, prior: seq<Item>)
    requires 0 <= p <= |s| && t == Lex(s, p) && t.tok != Word && t.tok != End && !Peek(s, p, "|)&;")
    requires !Heads(Toks(s, p), "<>") && (prior == [] ==> !Heads(Toks(s, p), "("))
    ensures Explains(Syntax, SpellItems(prior) + Toks(s, p))
  {
    LoneParen(s, p, t);
    ToksStep(s, p);
    LastName(prior);
    var us := SpellItems(prior) + Toks(s, p);
    var k := |SpellItems(prior)| - 1;
    assert us[k].Name? && us[k + 1] == Sign('(');
  }

  lemma {:induction false} LoneParen(s: string, p: int, t: Lexed)
    requires 0 <= p <= |s| && t == Lex(s, p) && t.tok != Word && t.tok != End && !Peek(s, p, "|)&;")
    requires !Heads(Toks(s, p), "<>")
    ensures LexemeOf(s, t) == Sign('(')
  {
    PeekIs(s, p, "<>");
  }

  lemma {:induction false} LastName(items: seq<Item>)
    requires items != []
    ensures SpellItems(items) != [] && SpellItems(items)[|SpellItems(items)| - 1].Name?
  {
    assert SpellItems(items) == SpellItem(items[0]) + SpellItems(items[1..]);
    if |items| > 1 {
      LastName(items[1..]);
    } else {
      assert SpellItems(items[1..]) == [];
    }
  }

  lemma {:induction false} MoreItems(xs: seq<Item>, ys: seq<Item>)
    ensures SpellItems(xs + ys) == SpellItems(xs) + SpellItems(ys) && Args(xs + ys) == Args(xs) + Args(ys)
  {
    MoreSpelled(xs, ys);
    MoreArgs(xs, ys);
  }

  lemma {:induction false} MoreSpelled(xs: seq<Item>, ys: seq<Item>)
    ensures SpellItems(xs + ys) == SpellItems(xs) + SpellItems(ys)
  {
    if xs == [] {
      assert xs + ys == ys;
    } else {
      MoreSpelled(xs[1..], ys);
      assert (xs + ys)[0] == xs[0] && (xs + ys)[1..] == xs[1..] + ys;
      PlusPlus(SpellItem(xs[0]), SpellItems(xs[1..]), SpellItems(ys));
    }
  }

  lemma {:induction false} MoreArgs(xs: seq<Item>, ys: seq<Item>)
    ensures Args(xs + ys) == Args(xs) + Args(ys)
  {
    if xs == [] {
      assert xs + ys == ys;
    } else {
      MoreArgs(xs[1..], ys);
      assert (xs + ys)[0] == xs[0] && (xs + ys)[1..] == xs[1..] + ys;
      PlusPlus(if xs[0].Arg? then [xs[0].w] else [], Args(xs[1..]), Args(ys));
    }
  }

  lemma {:induction false} TosAll(fs: seq<File>)
    ensures SpellItems(Tos(fs)) == SpellFiles(fs) && Args(Tos(fs)) == []
  {
    TosIs(fs, []);
    TosSpelled(fs, []);
    assert Tos(fs) + [] == Tos(fs) && SpellFiles(fs) + [] == SpellFiles(fs);
  }

  lemma {:induction false} SimpleError(s: string, p: int)
    requires 0 <= p <= |s| && !Peek(s, p, "(") && ParseExec(s, p).Err?
    ensures Explains(ParseExec(s, p).error, Toks(s, p)) && ParseExec(s, p).error != Leftovers
  {
    if ParseRedirs(s, p) == NoFile {
      RedirsError(s, p);
    } else {
      var fs, rest := RedirsSound(s, p);
      var r := ParseRedirs(s, p);
      TosAll(fs);
      PeekIs(s, p, "(");
      if fs == [] {
        assert SpellFiles(fs) + rest == rest && Tos(fs) == [];
      }
      ArgsError(s, r.pos, [], r.files, Tos(fs));
    }
  }

  lemma {:induction false} UnitError(s: string, p: int)
    requires 0 <= p <= |s| && ParseExec(s, p).Err?
    ensures Explains(ParseExec(s, p).error, Toks(s, p)) && ParseExec(s, p).error != Leftovers
    decreases |s| - p, 1
  {
    if !Peek(s, p, "(") {
      SimpleError(s, p);
    } else {
      var t := Lex(s, p);
      PeekSign(s, p, '(', t);
      if ParseLine(s, t.next).Err? {
        LineError(s, t.next);
        ExplainsMore(ParseLine(s, t.next).error, [Sign('(')], Toks(s, t.next));
      } else {
        GroupError(s, p, t);
      }
    }
  }

  lemma {:induction false} GroupError(s: string, p: int, t: Lexed)
    requires 0 <= p <= |s| && Peek(s, p, "(") && t == Lex(s, p) && ParseLine(s, t.next).Ok? && ParseExec(s, p).Err?
    requires Toks(s, p) == [Sign('(')] + Toks(s, t.next)
    ensures Explains(ParseExec(s, p).error, Toks(s, p)) && ParseExec(s, p).error != Leftovers
  {
    var x, rest, r := LineSound(s, t.next);
    if !Peek(s, r.pos, ")") {
      PeekIs(s, r.pos, ")");
      NotClosed(Toks(s, p), x, rest);
    } else {
      var u := Lex(s, r.pos);
      PeekSign(s, r.pos, ')', u);
      RedirsError(s, u.next);
      BehindParen(Toks(s, p), x, Toks(s, u.next));
    }
  }

  lemma {:induction false} NotClosed(ts: seq<Lexeme>, x: Src, rest: seq<Lexeme>)
    requires ts == [Sign('(')] + (Spell(x) + rest) && IsLine(x) && !Heads(rest, ")")
    ensures Explains(MissingParen, ts)
  {
    assert ts == Opened([], x, rest);
  }

  lemma {:induction false} BehindParen(ts: seq<Lexeme>, x: Src, rest: seq<Lexeme>)
    requires ts == [Sign('(')] + (Spell(x) + ([Sign(')')] + rest)) && Explains(MissingFile, rest)
    ensures Explains(MissingFile, ts)
  {
    var a := [Sign('(')] + (Spell(x) + [Sign(')')]);
    Regroup([Sign('(')], Spell(x), [Sign(')')], rest);
    ExplainsMore(MissingFile, a, rest);
  }

  lemma {:induction false} PipeError(s: string, p: int)
    requires 0 <= p <= |s| && ParsePipe(s, p).Err?
    ensures Explains(ParsePipe(s, p).error, Toks(s, p)) && ParsePipe(s, p).error != Leftovers
    decreases |s| - p, 2
  {
    var r := ParseExec(s, p);
    if r.Err? {
      UnitError(s, p);
    } else {
      PipeUnfold(s, p, r);
      var x, rest := UnitSound(s, p);
      var t := Lex(s, r.pos);
      PeekSign(s, r.pos, '|', t);
      PipeError(s, t.next);
      PlusPlus(Spell(x), [Sign('|')], Toks(s, t.next));
      ExplainsMore(ParsePipe(s, t.next).error, Spell(x) + [Sign('|')], Toks(s, t.next));
    }
  }

  lemma {:induction false} LineError(s: string, p: int)
    requires 0 <= p <= |s| && ParseLine(s, p).Err?
    ensures Explains(ParseLine(s, p).error, Toks(s, p)) && ParseLine(s, p).error != Leftovers
    decreases |s| - p, 3
  {
    var r := ParsePipe(s, p);
    if r.Err? {
      PipeError(s, p);
    } else {
      var x0, more := PipeSound(s, p);
      var x1, rest1, b := JobSound(s, p, r, x0, more);
      LineUnfold(s, p, r, b);
      var t := Lex(s, b.1);
      PeekSign(s, b.1, ';', t);
      LineError(s, t.next);
      PlusPlus(Spell(x1), [Sign(';')], Toks(s, t.next));
      ExplainsMore(ParseLine(s, t.next).error, Spell(x1) + [Sign(';')], Toks(s, t.next));
    }
  }

  /** Each error message says what is wrong with the line. */
  lemma {:induction false} ErrorMeans(s: string)
    requires Parse(s).Err?
    ensures Explains(Parse(s).error, Toks(s, 0))
  {
    if ParseLine(s, 0).Err? {
      LineError(s, 0);
    } else {
      var x, rest, r := LineSound(s, 0);
      ToksStep(s, r.pos);
    }
  }
}
