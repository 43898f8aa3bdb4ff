/** The language of user/sh.c: what a line of tokens means, and that the parser accepts exactly that language. */
module ShellGrammar {
  import opened Shell

  // ----- Tokens -----

  datatype Lexeme = Sign(c: char) | Twice | Name(w: string)   // Twice is >>

  function LexemeOf(s: string, t: Lexed): Lexeme {
    match t.tok
    case Symbol(c) => Sign(c)
    case Double => Twice
    case Word => Name(Text(s, t.span))
    case End => Name("")
  }

  // The tokens of the line from p on.
  function Toks(s: string, p: int): seq<Lexeme>
    requires 0 <= p <= |s|
    decreases |s| - p
  {
    var t := Lex(s, p);
    if t.tok == End then [] else [LexemeOf(s, t)] + Toks(s, t.next)
  }

  // The tokens start with one of the signs in `signs`.
  predicate Heads(ts: seq<Lexeme>, signs: string) {
    ts != [] && ((ts[0].Sign? && ts[0].c in signs) || (ts[0].Twice? && '>' in signs))
  }

  lemma {:induction false} SkipToks(s: string, p: int)
    requires 0 <= p <= |s|
    ensures Toks(s, Skip(s, p)) == Toks(s, p)
  {
    LexSkip(s, p);
    ToksStep(s, p);
    ToksStep(s, Skip(s, p));
  }

  lemma {:induction false} LexSkip(s: string, p: int)
    requires 0 <= p <= |s|
    ensures Lex(s, Skip(s, p)) == Lex(s, p)
  {
    SkipNone(s, Skip(s, p));
  }

  lemma {:induction false} ToksStep(s: string, p: int)
    requires 0 <= p <= |s|
    ensures var t := Lex(s, p); Toks(s, p) == if t.tok == End then [] else [LexemeOf(s, t)] + Toks(s, t.next)
  {
  }

  // Looking at the next character is looking at the next token.
  lemma {:induction false} PeekIs(s: string, p: int, signs: string)
    requires 0 <= p <= |s| && forall k :: 0 <= k < |signs| ==> IsSymbol(signs[k])
    ensures Peek(s, p, signs) <==> Heads(Toks(s, p), signs)
  {
  }

  // The tokens from p on are ts.
  ghost predicate TokensAt(s: string, p: int, ts: seq<Lexeme>) {
    0 <= p <= |s| && Toks(s, p) == ts
  }

  // The token at p is x, and q is where the next one starts.
  ghost predicate TokenAt(s: string, p: int, t: Lexed, x: Lexeme) {
    0 <= p <= |s| && t == Lex(s, p) && t.tok != End && LexemeOf(s, t) == x
  }

  lemma {:induction false} FirstTok(s: string, p: int, x: Lexeme, rest: seq<Lexeme>) returns (t: Lexed)
    requires TokensAt(s, p, [x] + rest)
    ensures TokenAt(s, p, t, x) && TokensAt(s, t.next, rest)
  {
    t := Lex(s, p);
    ToksStep(s, p);
    SameCons(x, rest, LexemeOf(s, t), Toks(s, t.next));
  }

  lemma {:induction false} SameCons(x: Lexeme, xs: seq<Lexeme>, y: Lexeme, ys: seq<Lexeme>)
    requires [x] + xs == [y] + ys
    ensures x == y && xs == ys
  {
    assert ([x] + xs)[0] == x && ([y] + ys)[0] == y;
    assert ([x] + xs)[1..] == xs && ([y] + ys)[1..] == ys;
  }

  // ----- Grammar -----

  // A word or a redirection of a simple command, in the order they are written.
  datatype Item = Arg(w: string) | To(kind: Kind, f: string)

  type File = (string, Kind)

  datatype Src = Simple(items: seq<Item>) | Group(line: Src, files: seq<File>)
               | Bar(left: Src, right: Src) | Amp(job: Src) | Semi(left: Src, right: Src)

  // | binds closest and to the right, then &, then ; to the right.
  predicate IsUnit(x: Src)
    decreases x, 0
  {
    match x
    case Simple(items) => |Args(items)| < MAXARGS
    case Group(line, _) => IsLine(line)
    case _ => false
  }

  predicate IsPipe(x: Src)
    decreases x, 1
  {
    IsUnit(x) || (x.Bar? && IsUnit(x.left) && IsPipe(x.right))
  }

  predicate IsJob(x: Src)
    decreases x, 2
  {
    IsPipe(x) || (x.Amp? && IsJob(x.job))
  }

  predicate IsLine(x: Src)
    decreases x, 3
  {
    IsJob(x) || (x.Semi? && IsJob(x.left) && IsLine(x.right))
  }

  // The words of a simple command, and its redirections.
  function Args(items: seq<Item>): seq<string> {
    if items == [] then [] else (if items[0].Arg? then [items[0].w] else []) + Args(items[1..])
  }

  function Files(items: seq<Item>): seq<File> {
    if items == [] then [] else (if items[0].To? then [(items[0].f, items[0].kind)] else []) + Files(items[1..])
  }

  // cmd with redirections around it, the last outermost.
  function Redirected<T>(cmd: Cmd<T>, files: seq<(T, Kind)>): Cmd<T> {
    if files == [] then cmd
    else var last := files[|files| - 1]; Redir(Redirected(cmd, files[..|files| - 1]), last.0, last.1)
  }

  function Mean(x: Src): Cmd<string> {
    match x
    case Simple(items) => Redirected(Exec(Args(items)), Files(items))
    case Group(line, files) => Redirected(Mean(line), files)
    case Bar(l, r) => Pipe(Mean(l), Mean(r))
    case Amp(j) => Back(Mean(j))
    case Semi(l, r) => List(Mean(l), Mean(r))
  }

  function OpSign(kind: Kind): Lexeme {
    match kind
    case Input => Sign('<')
    case Output => Sign('>')
    case Append => Twice
  }

  function SpellItem(i: Item): seq<Lexeme> {
    match i
    case Arg(w) => [Name(w)]
    case To(kind, f) => [OpSign(kind), Name(f)]
  }

  function SpellItems(items: seq<Item>): seq<Lexeme> {
    if items == [] then [] else SpellItem(items[0]) + SpellItems(items[1..])
  }

  function SpellFiles(files: seq<File>): seq<Lexeme> {
    if files == [] then [] else [OpSign(files[0].1), Name(files[0].0)] + SpellFiles(files[1..])
  }

  function Spell(x: Src): seq<Lexeme> {
    match x
    case Simple(items) => SpellItems(items)
    case Group(line, files) => [Sign('(')] + (Spell(line) + ([Sign(')')] + SpellFiles(files)))
    case Bar(l, r) => Spell(l) + ([Sign('|')] + Spell(r))
    case Amp(j) => Spell(j) + [Sign('&')]
    case Semi(l, r) => Spell(l) + ([Sign(';')] + Spell(r))
  }

  // ----- Redirections -----

  lemma {:induction false} WrapIs<T>(cmd: Cmd<T>, files: seq<(T, Kind)>)
    ensures Wrap(cmd, files) == Redirected(cmd, files)
    decreases |files|
  {
    if files != [] {
      WrapIs(Redir(cmd, files[0].0, files[0].1), files[1..]);
      RedirectedFront(cmd, files);
    }
  }

  lemma {:induction false} RedirectedFront<T>(cmd: Cmd<T>, files: seq<(T, Kind)>)
    requires files != []
    ensures Redirected(cmd, files) == Redirected(Redir(cmd, files[0].0, files[0].1), files[1..])
    decreases |files|
  {
    var n := |files| - 1;
    if n > 0 {
      RedirectedFront(cmd, files[..n]);
      assert files[..n][1..] == files[1..][..n - 1];
    }
  }

  function ReadFiles(s: string, files: seq<(Span, Kind)>): seq<File> {
    seq(|files|, k requires 0 <= k < |files| => (Text(s, files[k].0), files[k].1))
  }

  lemma {:induction false} ReadRedirected(s: string, cmd: Cmd<Span>, files: seq<(Span, Kind)>)
    ensures Read(s, Redirected(cmd, files)) == Redirected(Read(s, cmd), ReadFiles(s, files))
    decreases |files|
  {
    if files != [] {
      var n := |files| - 1;
      ReadRedirected(s, cmd, files[..n]);
      assert ReadFiles(s, files)[..n] == ReadFiles(s, files[..n]);
    }
  }

  lemma {:induction false} ReadWrap(s: string, cmd: Cmd<Span>, files: seq<(Span, Kind)>)
    ensures Read(s, Wrap(cmd, files)) == Redirected(Read(s, cmd), ReadFiles(s, files))
  {
    WrapIs(cmd, files);
    ReadRedirected(s, cmd, files);
  }

  lemma {:induction false} ReadFilesPlus(s: string, xs: seq<(Span, Kind)>, ys: seq<(Span, Kind)>)
    ensures ReadFiles(s, xs + ys) == ReadFiles(s, xs) + ReadFiles(s, ys)
  {
  }

  lemma {:induction false} TextsPlus(s: string, xs: seq<Span>, ys: seq<Span>)
    ensures Texts(s, xs + ys) == Texts(s, xs) + Texts(s, ys)
  {
  }

  // r are the redirections of fs, and the tokens of rest follow.
  ghost predicate GotFiles(s: string, r: Redirs, fs: seq<File>, rest: seq<Lexeme>) {
    r.Redirs? && 0 <= r.pos <= |s| && ReadFiles(s, r.files) == fs && Toks(s, r.pos) == rest
  }

  // An operator and a name at p.
  lemma {:induction false} OneRedir(s: string, p: int, kind: Kind, f: string, rest: seq<Lexeme>)
    returns (op: Lexed, file: Lexed)
    requires TokensAt(s, p, [OpSign(kind), Name(f)] + rest)
    ensures TokenAt(s, p, op, OpSign(kind)) && TokenAt(s, op.next, file, Name(f)) && TokensAt(s, file.next, rest)
  {
    assert [OpSign(kind), Name(f)] + rest == [OpSign(kind)] + ([Name(f)] + rest);
    op := FirstTok(s, p, OpSign(kind), [Name(f)] + rest);
    file := FirstTok(s, op.next, Name(f), rest);
  }

  lemma {:induction false} PeekOp(s: string, p: int, kind: Kind)
    requires 0 <= p <= |s| && Lex(s, p).tok != End && LexemeOf(s, Lex(s, p)) == OpSign(kind)
    ensures Peek(s, p, "<>") && KindOf(Lex(s, p).tok) == kind
  {
  }

  lemma {:induction false} FilesStep(s: string, x: (Span, Kind), more: seq<(Span, Kind)>, f: string, kind: Kind,
                                     fs: seq<File>)
    requires Text(s, x.0) == f && x.1 == kind && ReadFiles(s, more) == fs
    ensures ReadFiles(s, [x] + more) == [(f, kind)] + fs
  {
    ReadFilesPlus(s, [x], more);
    assert ReadFiles(s, [x]) == [(f, kind)];
  }

  lemma {:induction false} RedirsComplete(s: string, p: int, fs: seq<File>, rest: seq<Lexeme>)
    requires 0 <= p <= |s| && Toks(s, p) == SpellFiles(fs) + rest && !Heads(rest, "<>")
    ensures GotFiles(s, ParseRedirs(s, p), fs, rest)
    decreases |fs|
  {
    if fs == [] {
      PeekIs(s, p, "<>");
      assert SpellFiles(fs) + rest == rest;
      SkipToks(s, p);
      assert ReadFiles(s, []) == [];
    } else {
      var f, kind, tail := fs[0].0, fs[0].1, SpellFiles(fs[1..]) + rest;
      SpellMore(f, kind, fs[1..], rest);
      assert [(f, kind)] + fs[1..] == fs;
      var op, file := OneRedir(s, p, kind, f, tail);
      PeekOp(s, p, kind);
      RedirsComplete(s, file.next, fs[1..], rest);
      FilesStep(s, (file.span, KindOf(op.tok)), ParseRedirs(s, file.next).files, f, kind, fs[1..]);
    }
  }

  lemma {:induction false} RedirsSound(s: string, p: int) returns (fs: seq<File>, rest: seq<Lexeme>)
    requires 0 <= p <= |s| && ParseRedirs(s, p).Redirs?
    ensures GotFiles(s, ParseRedirs(s, p), fs, rest) && Toks(s, p) == SpellFiles(fs) + rest && !Heads(rest, "<>")
    decreases |s| - p
  {
    PeekIs(s, p, "<>");
    if !Peek(s, p, "<>") {
      fs, rest := [], Toks(s, p);
      SkipToks(s, p);
      assert ReadFiles(s, []) == [] && SpellFiles(fs) + rest == rest;
    } else {
      var op := Lex(s, p);
      var file := Lex(s, op.next);
      var fs1;
      fs1, rest := RedirsSound(s, file.next);
      var f, kind := Text(s, file.span), KindOf(op.tok);
      fs := [(f, kind)] + fs1;
      FilesStep(s, (file.span, kind), ParseRedirs(s, file.next).files, f, kind, fs1);
      RedirToks(s, p, op, file, SpellFiles(fs1) + rest);
      SpellMore(f, kind, fs1, rest);
    }
  }

  lemma {:induction false} SpellMore(f: string, kind: Kind, fs: seq<File>, rest: seq<Lexeme>)
    ensures SpellFiles([(f, kind)] + fs) + rest == [OpSign(kind), Name(f)] + (SpellFiles(fs) + rest)
  {
    assert ([(f, kind)] + fs)[1..] == fs;
  }

  lemma {:induction false} RedirToks(s: string, p: int, op: Lexed, file: Lexed, rest: seq<Lexeme>)
    requires 0 <= p <= |s| && Peek(s, p, "<>") && op == Lex(s, p) && file == Lex(s, op.next) && file.tok == Word
    requires Toks(s, file.next) == rest
    ensures Toks(s, p) == [OpSign(KindOf(op.tok)), Name(Text(s, file.span))] + rest
  {
    OpIs(s, p);
    ToksStep(s, p);
    ToksStep(s, op.next);
  }

  lemma {:induction false} OpIs(s: string, p: int)
    requires 0 <= p <= |s| && Peek(s, p, "<>")
    ensures LexemeOf(s, Lex(s, p)) == OpSign(KindOf(Lex(s, p).tok))
  {
  }

  // ----- Simple commands -----

  // r is a parse of c, and the tokens of rest follow.
  ghost predicate Got(s: string, r: Result, c: Cmd<string>, rest: seq<Lexeme>) {
    r.Ok? && 0 <= r.pos <= |s| && Read(s, r.cmd) == c && Toks(s, r.pos) == rest
  }

  // What may follow a unit, a pipeline, a job, a line.
  predicate AfterUnit(rest: seq<Lexeme>) {
    rest == [] || Heads(rest, "|)&;")
  }

  predicate AfterPipe(rest: seq<Lexeme>) {
    rest == [] || Heads(rest, ")&;")
  }

  predicate AfterJob(rest: seq<Lexeme>) {
    rest == [] || Heads(rest, ");")
  }

  predicate AfterLine(rest: seq<Lexeme>) {
    rest == [] || Heads(rest, ")")
  }

  lemma {:induction false} UnitFollow(rest: seq<Lexeme>)
    requires AfterUnit(rest)
    ensures !Heads(rest, "<>") && !Heads(rest, "(")
  {
  }

  lemma {:induction false} PipeFollow(rest: seq<Lexeme>)
    requires AfterPipe(rest)
    ensures !Heads(rest, "|") && AfterUnit(rest)
  {
  }

  lemma {:induction false} LineFollow(rest: seq<Lexeme>)
    requires AfterLine(rest)
    ensures !Heads(rest, ";") && AfterJob(rest)
  {
  }

  lemma {:induction false} SignFollow(c: char, more: seq<Lexeme>)
    ensures c == '|' ==> AfterUnit([Sign(c)] + more)
    ensures c == ';' ==> AfterJob([Sign(c)] + more)
    ensures c == ')' ==> AfterLine([Sign(c)] + more)
    ensures c == '&' ==> AfterPipe([Sign(c)] + more)
  {
  }

  // The redirections that items start with.
  function Lead(items: seq<Item>): seq<File> {
    if items == [] || items[0].Arg? then [] else [(items[0].f, items[0].kind)] + Lead(items[1..])
  }

  function Later(items: seq<Item>): seq<Item> {
    if items == [] || items[0].Arg? then items else Later(items[1..])
  }

  lemma {:induction false} LeadSpelled(items: seq<Item>)
    ensures SpellItems(items) == SpellFiles(Lead(items)) + SpellItems(Later(items))
  {
    if items != [] && items[0].To? {
      LeadSpelled(items[1..]);
      SpellMore(items[0].f, items[0].kind, Lead(items[1..]), SpellItems(Later(items)));
    }
  }

  lemma {:induction false} LeadIs(items: seq<Item>)
    ensures Args(items) == Args(Later(items)) && Files(items) == Lead(items) + Files(Later(items))
    ensures |Later(items)| <= |items| && (Later(items) != [] ==> Later(items)[0].Arg?)
  {
    if items != [] && items[0].To? {
      LeadIs(items[1..]);
      assert Args(items) == [] + Args(items[1..]);
    }
  }

  // The tree so far: argv and files read, and items still to come.
  function Built(s: string, argv: seq<Span>, files: seq<(Span, Kind)>, items: seq<Item>): Cmd<string> {
    Redirected(Exec(Texts(s, argv) + Args(items)), ReadFiles(s, files) + Files(items))
  }

  lemma {:induction false} BuiltEnd(s: string, argv: seq<Span>, files: seq<(Span, Kind)>)
    ensures Read(s, Wrap(Exec(argv), files)) == Built(s, argv, files, [])
  {
    ReadWrap(s, Exec(argv), files);
    assert Texts(s, argv) + Args([]) == Texts(s, argv) && ReadFiles(s, files) + Files([]) == ReadFiles(s, files);
  }

  lemma {:induction false} BuiltStep(s: string, argv: seq<Span>, files: seq<(Span, Kind)>, w: string, x: Span,
                                     fs: seq<File>,
                  more: seq<(Span, Kind)>, items: seq<Item>, items': seq<Item>)
    requires Text(s, x) == w && ReadFiles(s, more) == fs
    requires Args(items) == [w] + Args(items') && Files(items) == fs + Files(items')
    ensures Built(s, argv, files, items) == Built(s, argv + [x], files + more, items')
  {
    TextsPlus(s, argv, [x]);
    assert Texts(s, [x]) == [w];
    ReadFilesPlus(s, files, more);
    assert Texts(s, argv) + ([w] + Args(items')) == (Texts(s, argv) + [w]) + Args(items');
    assert ReadFiles(s, files) + (fs + Files(items')) == (ReadFiles(s, files) + fs) + Files(items');
  }

  lemma {:induction false} NotRedir(items: seq<Item>, rest: seq<Lexeme>)
    requires AfterUnit(rest) && (items != [] ==> items[0].Arg?)
    ensures !Heads(SpellItems(items) + rest, "<>")
  {
    UnitFollow(rest);
    if items == [] {
      assert SpellItems(items) + rest == rest;
    } else {
      assert (SpellItems(items) + rest)[0] == Name(items[0].w);
    }
  }

  lemma {:induction false} ArgsComplete(s: string, p: int, items: seq<Item>, rest: seq<Lexeme>, argv: seq<Span>,
                                        files: seq<(Span, Kind)>)
    requires 0 <= p <= |s| && Toks(s, p) == SpellItems(items) + rest && AfterUnit(rest)
    requires (items != [] ==> items[0].Arg?) && |argv| + |Args(items)| < MAXARGS
    ensures Got(s, ParseArgs(s, p, argv, files), Built(s, argv, files, items), rest)
    decreases |items|
  {
    if items == [] {
      assert SpellItems(items) + rest == rest;
      PeekIs(s, p, "|)&;");
      ArgsStop(s, p, argv, files);
    } else {
      var w, fs, items' := items[0].w, Lead(items[1..]), Later(items[1..]);
      var rest' := SpellItems(items') + rest;
      LeadIs(items[1..]);
      var t := WordThen(s, p, items, w, fs, items', rest);
      RedirsComplete(s, t.next, fs, rest');
      var r := ParseRedirs(s, t.next);
      PlainPeek(s, p, t, w);
      BuiltStep(s, argv, files, w, t.span, fs, r.files, items, items');
      ArgsComplete(s, r.pos, items', rest, argv + [t.span], files + r.files);
      ArgUnfold(s, p, t, argv, files, r);
    }
  }

  lemma {:induction false} ArgUnfold(s: string, p: int, t: Lexed, argv: seq<Span>, files: seq<(Span, Kind)>, r: Redirs)
    requires 0 <= p <= |s| && !Peek(s, p, "|)&;") && t == Lex(s, p) && t.tok == Word && |argv| + 1 < MAXARGS
    requires r == ParseRedirs(s, t.next) && r.Redirs?
    ensures ParseArgs(s, p, argv, files) == ParseArgs(s, r.pos, argv + [t.span], files + r.files)
  {
  }

  // A word and the redirections behind it.
  lemma {:induction false} WordThen(s: string, p: int, items: seq<Item>, w: string, fs: seq<File>, items': seq<Item>,
                                    rest: seq<Lexeme>)
    returns (t: Lexed)
    requires TokensAt(s, p, SpellItems(items) + rest) && AfterUnit(rest)
    requires items != [] && items[0] == Arg(w) && fs == Lead(items[1..]) && items' == Later(items[1..])
    ensures TokenAt(s, p, t, Name(w)) && TokensAt(s, t.next, SpellFiles(fs) + (SpellItems(items') + rest))
    ensures !Heads(SpellItems(items') + rest, "<>") && !Peek(s, p, "|)&;")
  {
    LeadIs(items[1..]);
    NotRedir(items', rest);
    WordSpelled(items, w, fs, items', rest);
    t := FirstTok(s, p, Name(w), SpellFiles(fs) + (SpellItems(items') + rest));
    PlainPeek(s, p, t, w);
  }

  lemma {:induction false} PlainPeek(s: string, p: int, t: Lexed, w: string)
    requires TokenAt(s, p, t, Name(w))
    ensures !Peek(s, p, "|)&;") && t.tok == Word && Text(s, t.span) == w
  {
  }

  lemma {:induction false} WordSpelled(items: seq<Item>, w: string, fs: seq<File>, items': seq<Item>,
                                       rest: seq<Lexeme>)
    requires items != [] && items[0] == Arg(w) && fs == Lead(items[1..]) && items' == Later(items[1..])
    ensures SpellItems(items) + rest == [Name(w)] + (SpellFiles(fs) + (SpellItems(items') + rest))
  {
    LeadSpelled(items[1..]);
  }

  lemma {:induction false} ArgsStop(s: string, p: int, argv: seq<Span>, files: seq<(Span, Kind)>)
    requires 0 <= p <= |s| && (Peek(s, p, "|)&;") || Lex(s, p).tok == End)
    ensures Got(s, ParseArgs(s, p, argv, files), Built(s, argv, files, []), Toks(s, p)) && AfterUnit(Toks(s, p))
  {
    PeekIs(s, p, "|)&;");
    SkipToks(s, p);
    SkipToks(s, Lex(s, p).next);
    BuiltEnd(s, argv, files);
  }

  lemma {:induction false} ArgsSound(s: string, p: int, argv: seq<Span>, files: seq<(Span, Kind)>)
    returns (items: seq<Item>, rest: seq<Lexeme>)
    requires 0 <= p <= |s| && ParseArgs(s, p, argv, files).Ok? && |argv| < MAXARGS && !Heads(Toks(s, p), "<>")
    ensures Got(s, ParseArgs(s, p, argv, files), Built(s, argv, files, items), rest)
    ensures Toks(s, p) == SpellItems(items) + rest && AfterUnit(rest) && |argv| + |Args(items)| < MAXARGS
    decreases |s| - p
  {
    var t := Lex(s, p);
    if Peek(s, p, "|)&;") || t.tok == End {
      items, rest := [], Toks(s, p);
      assert SpellItems(items) + rest == rest;
      ArgsStop(s, p, argv, files);
    } else {
      var fs, rest1 := RedirsSound(s, t.next);
      var r := ParseRedirs(s, t.next);
      var items1;
      items1, rest := ArgsSound(s, r.pos, argv + [t.span], files + r.files);
      var w := Text(s, t.span);
      items := [Arg(w)] + (Tos(fs) + items1);
      ItemsBack(w, fs, items1, items);
      BuiltStep(s, argv, files, w, t.span, fs, r.files, items, items1);
      ArgUnfold(s, p, t, argv, files, r);
      WordBack(s, p, t, w, fs, rest1, items1, items, rest);
    }
  }

  lemma {:induction false} ItemsBack(w: string, fs: seq<File>, items1: seq<Item>, items: seq<Item>)
    requires items == [Arg(w)] + (Tos(fs) + items1)
    ensures Args(items) == [w] + Args(items1) && Files(items) == fs + Files(items1)
    ensures SpellItems(items) == [Name(w)] + (SpellFiles(fs) + SpellItems(items1))
  {
    assert items[1..] == Tos(fs) + items1;
    TosIs(fs, items1);
    TosSpelled(fs, items1);
    assert Files(items) == [] + Files(items[1..]);
  }

  lemma {:induction false} WordBack(s: string, p: int, t: Lexed, w: string, fs: seq<File>, rest1: seq<Lexeme>,
                                    items1: seq<Item>, items: seq<Item>, rest: seq<Lexeme>)
    requires 0 <= p <= |s| && t == Lex(s, p) && t.tok == Word && w == Text(s, t.span)
    requires Toks(s, t.next) == SpellFiles(fs) + rest1 && rest1 == SpellItems(items1) + rest
    requires items == [Arg(w)] + (Tos(fs) + items1)
    ensures Toks(s, p) == SpellItems(items) + rest
  {
    ToksStep(s, p);
    ItemsBack(w, fs, items1, items);
    Regroup([Name(w)], SpellFiles(fs), SpellItems(items1), rest);
  }

  lemma {:induction false} Regroup<T>(a: seq<T>, b: seq<T>, c: seq<T>, d: seq<T>)
    ensures (a + (b + c)) + d == a + (b + (c + d))
  {
  }

  function Tos(fs: seq<File>): seq<Item> {
    seq(|fs|, k requires 0 <= k < |fs| => To(fs[k].1, fs[k].0))
  }

  lemma {:induction false} TosSpelled(fs: seq<File>, items: seq<Item>)
    ensures SpellItems(Tos(fs) + items) == SpellFiles(fs) + SpellItems(items)
    decreases |fs|
  {
    if fs == [] {
      assert Tos(fs) + items == items;
    } else {
      TosSpelled(fs[1..], items);
      assert (Tos(fs) + items)[1..] == Tos(fs[1..]) + items;
      SpellMore(fs[0].0, fs[0].1, fs[1..], SpellItems(items));
      assert [(fs[0].0, fs[0].1)] + fs[1..] == fs;
    }
  }

  lemma {:induction false} TosIs(fs: seq<File>, items: seq<Item>)
    ensures Args(Tos(fs) + items) == Args(items) && Files(Tos(fs) + items) == fs + Files(items)
    decreases |fs|
  {
    if fs == [] {
      assert Tos(fs) + items == items;
    } else {
      TosIs(fs[1..], items);
      assert (Tos(fs) + items)[1..] == Tos(fs[1..]) + items;
      assert [(fs[0].0, fs[0].1)] + fs[1..] == fs;
    }
  }

  // ----- Units, pipelines, jobs and lines: what the grammar derives is parsed -----

  lemma {:induction false} PlusPlus<T>(a: seq<T>, b: seq<T>, c: seq<T>)
    ensures (a + b) + c == a + (b + c)
  {
  }

  // A sign at p, followed by ts.
  lemma {:induction false} SignAt(s: string, p: int, c: char, signs: string, ts: seq<Lexeme>) returns (t: Lexed)
    requires TokensAt(s, p, [Sign(c)] + ts) && (forall k :: 0 <= k < |signs| ==> IsSymbol(signs[k]))
    ensures TokenAt(s, p, t, Sign(c)) && TokensAt(s, t.next, ts) && (Peek(s, p, signs) <==> c in signs)
  {
    t := FirstTok(s, p, Sign(c), ts);
    PeekIs(s, p, signs);
  }

  lemma {:induction false} SimpleComplete(s: string, p: int, items: seq<Item>, rest: seq<Lexeme>)
    requires TokensAt(s, p, SpellItems(items) + rest) && |Args(items)| < MAXARGS && AfterUnit(rest)
    ensures Got(s, ParseExec(s, p), Mean(Simple(items)), rest)
  {
    var fs, items' := Lead(items), Later(items);
    LeadIs(items);
    LeadSpelled(items);
    NotRedir(items', rest);
    PlusPlus(SpellFiles(fs), SpellItems(items'), rest);
    RedirsComplete(s, p, fs, SpellItems(items') + rest);
    var r := ParseRedirs(s, p);
    ArgsComplete(s, r.pos, items', rest, [], r.files);
    assert Texts(s, []) + Args(items') == Args(items);
    NoParen(items, rest);
    PeekIs(s, p, "(");
  }

  lemma {:induction false} NoParen(items: seq<Item>, rest: seq<Lexeme>)
    requires AfterUnit(rest)
    ensures !Heads(SpellItems(items) + rest, "(")
  {
    UnitFollow(rest);
    if items != [] {
      assert SpellItems(items) == SpellItem(items[0]) + SpellItems(items[1..]);
      assert (SpellItems(items) + rest)[0] == SpellItem(items[0])[0];
    } else {
      assert SpellItems(items) + rest == rest;
    }
  }

  lemma {:induction false} UnitComplete(s: string, p: int, x: Src, rest: seq<Lexeme>)
    requires TokensAt(s, p, Spell(x) + rest) && IsUnit(x) && AfterUnit(rest)
    ensures Got(s, ParseExec(s, p), Mean(x), rest)
    decreases x, 0
  {
    match x
    case Simple(items) =>
      SimpleComplete(s, p, items, rest);
    case Group(line, files) =>
      var close := [Sign(')')] + (SpellFiles(files) + rest);
      GroupSpelled(line, files, rest, close);
      var t := SignAt(s, p, '(', "(", Spell(line) + close);
      SignFollow(')', SpellFiles(files) + rest);
      LineComplete(s, t.next, line, close);
      GroupClosed(s, p, t, ParseLine(s, t.next), line, files, rest, close);
  }

  // Once the line inside is parsed, so is the group.
  lemma {:induction false} GroupClosed(s: string, p: int, t: Lexed, r: Result, line: Src, files: seq<File>,
                                       rest: seq<Lexeme>, close: seq<Lexeme>)
    requires 0 <= p <= |s| && Peek(s, p, "(") && t == Lex(s, p) && r == ParseLine(s, t.next)
    requires Got(s, r, Mean(line), close) && close == [Sign(')')] + (SpellFiles(files) + rest) && AfterUnit(rest)
    ensures Got(s, ParseExec(s, p), Mean(Group(line, files)), rest)
  {
    UnitFollow(rest);
    var u := SignAt(s, r.pos, ')', ")", SpellFiles(files) + rest);
    RedirsComplete(s, u.next, files, rest);
    var fs := ParseRedirs(s, u.next);
    BlockUnfold(s, p, t, r, u, fs);
    ReadWrap(s, r.cmd, fs.files);
  }

  // ----- One layer of the parsing functions -----

  lemma {:induction false} BlockUnfold(s: string, p: int, t: Lexed, r: Result, u: Lexed, fs: Redirs)
    requires 0 <= p <= |s| && Peek(s, p, "(") && t == Lex(s, p) && r == ParseLine(s, t.next) && r.Ok?
    requires Peek(s, r.pos, ")") && u == Lex(s, r.pos) && fs == ParseRedirs(s, u.next) && fs.Redirs?
    ensures ParseExec(s, p) == Ok(Wrap(r.cmd, fs.files), fs.pos)
  {
  }

  lemma {:induction false} PipeUnfold(s: string, p: int, r: Result)
    requires 0 <= p <= |s| && r == ParseExec(s, p) && r.Ok?
    ensures !Peek(s, r.pos, "|") ==> ParsePipe(s, p) == Ok(r.cmd, Skip(s, r.pos))
    ensures Peek(s, r.pos, "|") ==> var right := ParsePipe(s, Lex(s, r.pos).next);
                                    ParsePipe(s, p) == if right.Ok? then Ok(Pipe(r.cmd, right.cmd), right.pos)
                                      else right
  {
  }

  lemma {:induction false} BacksUnfold(s: string, p: int, cmd: Cmd<Span>)
    requires 0 <= p <= |s|
    ensures ParseBacks(s, p, cmd) == if Peek(s, p, "&") then ParseBacks(s, Lex(s, p).next, Back(cmd))
                                     else (cmd, Skip(s, p))
  {
  }

  lemma {:induction false} LineUnfold(s: string, p: int, r: Result, b: (Cmd<Span>, int))
    requires 0 <= p <= |s| && r == ParsePipe(s, p) && r.Ok? && b == ParseBacks(s, r.pos, r.cmd)
    ensures !Peek(s, b.1, ";") ==> ParseLine(s, p) == Ok(b.0, Skip(s, b.1))
    ensures Peek(s, b.1, ";") ==> var right := ParseLine(s, Lex(s, b.1).next);
                                  ParseLine(s, p) == if right.Ok? then Ok(List(b.0, right.cmd), right.pos) else right
  {
  }

  // The same, as far as results are concerned.
  lemma {:induction false} GotSkip(s: string, r: Result, c: Cmd<string>, rest: seq<Lexeme>, r': Result)
    requires Got(s, r, c, rest) && r' == Ok(r.cmd, Skip(s, r.pos))
    ensures Got(s, r', c, rest)
  {
    SkipToks(s, r.pos);
  }

  lemma {:induction false} GotPipe(s: string, r: Result, c: Cmd<string>, more: seq<Lexeme>, right: Result,
                                   d: Cmd<string>, rest: seq<Lexeme>, r': Result)
    requires Got(s, r, c, more) && Got(s, right, d, rest) && r' == Ok(Pipe(r.cmd, right.cmd), right.pos)
    ensures Got(s, r', Pipe(c, d), rest)
  {
  }

  lemma {:induction false} GotList(s: string, cmd: Cmd<Span>, c: Cmd<string>, right: Result, d: Cmd<string>,
                                   rest: seq<Lexeme>, r': Result)
    requires Read(s, cmd) == c && Got(s, right, d, rest) && r' == Ok(List(cmd, right.cmd), right.pos)
    ensures Got(s, r', List(c, d), rest)
  {
  }

  // ----- Pipelines, jobs and lines -----

  lemma {:induction false} GroupSpelled(line: Src, files: seq<File>, rest: seq<Lexeme>, close: seq<Lexeme>)
    requires close == [Sign(')')] + (SpellFiles(files) + rest)
    ensures Spell(Group(line, files)) + rest == [Sign('(')] + (Spell(line) + close)
  {
  }

  lemma {:induction false} PipeComplete(s: string, p: int, x: Src, rest: seq<Lexeme>)
    requires TokensAt(s, p, Spell(x) + rest) && IsPipe(x) && AfterPipe(rest)
    ensures Got(s, ParsePipe(s, p), Mean(x), rest)
    decreases x, 1
  {
    PipeFollow(rest);
    if IsUnit(x) {
      UnitComplete(s, p, x, rest);
      var r := ParseExec(s, p);
      PeekIs(s, r.pos, "|");
      PipeUnfold(s, p, r);
      GotSkip(s, r, Mean(x), rest, ParsePipe(s, p));
    } else {
      var more := Spell(x.right) + rest;
      BetweenSpelled(x.left, '|', x.right, rest);
      SignFollow('|', more);
      UnitComplete(s, p, x.left, [Sign('|')] + more);
      var r := ParseExec(s, p);
      var t := SignAt(s, r.pos, '|', "|", more);
      PipeComplete(s, t.next, x.right, rest);
      PipeUnfold(s, p, r);
      GotPipe(s, r, Mean(x.left), [Sign('|')] + more, ParsePipe(s, t.next), Mean(x.right), rest, ParsePipe(s, p));
    }
  }

  lemma {:induction false} BetweenSpelled(l: Src, c: char, r: Src, rest: seq<Lexeme>)
    ensures (Spell(l) + ([Sign(c)] + Spell(r))) + rest == Spell(l) + ([Sign(c)] + (Spell(r) + rest))
  {
  }

  // A job is a pipeline and n signs &.
  function Base(x: Src): Src {
    if x.Amp? then Base(x.job) else x
  }

  function Count(x: Src): nat {
    if x.Amp? then 1 + Count(x.job) else 0
  }

  function Amps(n: nat): seq<Lexeme> {
    if n == 0 then [] else [Sign('&')] + Amps(n - 1)
  }

  function Backed(cmd: Cmd<string>, n: nat): Cmd<string> {
    if n == 0 then cmd else Back(Backed(cmd, n - 1))
  }

  lemma {:induction false} AmpsBack(n: nat)
    ensures Amps(n) + [Sign('&')] == Amps(n + 1)
  {
    if n > 0 {
      AmpsBack(n - 1);
      PlusPlus([Sign('&')], Amps(n - 1), [Sign('&')]);
    }
  }

  lemma {:induction false} AmpsFront(n: nat, rest: seq<Lexeme>)
    requires n > 0
    ensures Amps(n) + rest == [Sign('&')] + (Amps(n - 1) + rest)
  {
    PlusPlus([Sign('&')], Amps(n - 1), rest);
  }

  lemma {:induction false} JobIs(x: Src)
    requires IsJob(x)
    ensures IsPipe(Base(x)) && Mean(x) == Backed(Mean(Base(x)), Count(x)) && Spell(x) == Spell(Base(x)) + Amps(Count(x))
  {
    if x.Amp? {
      assert !IsUnit(x) && !IsPipe(x);
      JobIs(x.job);
      AmpsBack(Count(x.job));
      PlusPlus(Spell(Base(x)), Amps(Count(x.job)), [Sign('&')]);
    } else {
      assert Spell(x) + Amps(0) == Spell(x);
    }
  }

  lemma {:induction false} BackedFront(cmd: Cmd<string>, n: nat)
    ensures Backed(Back(cmd), n) == Backed(cmd, n + 1)
  {
    if n > 0 {
      BackedFront(cmd, n - 1);
    }
  }

  lemma {:induction false} BacksStep(s: string, p: int, cmd: Cmd<Span>, t: Lexed, b: (Cmd<Span>, int), n: nat)
    requires 0 <= p <= |s| && Peek(s, p, "&") && t == Lex(s, p) && b == ParseBacks(s, t.next, Back(cmd))
    requires Read(s, b.0) == Backed(Read(s, Back(cmd)), n)
    ensures b == ParseBacks(s, p, cmd) && Read(s, b.0) == Backed(Read(s, cmd), n + 1)
  {
    BacksUnfold(s, p, cmd);
    BackedFront(Read(s, cmd), n);
  }

  predicate NoAmp(rest: seq<Lexeme>) {
    rest == [] || rest[0] != Sign('&')
  }

  // The & loop takes all the signs & there are.
  lemma {:induction false} BacksSound(s: string, p: int, cmd: Cmd<Span>) returns (n: nat, rest: seq<Lexeme>)
    requires 0 <= p <= |s|
    ensures Toks(s, p) == Amps(n) + rest && NoAmp(rest)
    ensures Read(s, ParseBacks(s, p, cmd).0) == Backed(Read(s, cmd), n) && Toks(s, ParseBacks(s, p, cmd).1) == rest
    decreases |s| - p
  {
    if !Peek(s, p, "&") {
      BacksUnfold(s, p, cmd);
      n, rest := 0, Toks(s, p);
      assert Amps(n) + rest == rest;
      PeekIs(s, p, "&");
      SkipToks(s, p);
    } else {
      var t := Lex(s, p);
      PeekSign(s, p, '&', t);
      var m;
      m, rest := BacksSound(s, t.next, Back(cmd));
      n := m + 1;
      BacksStep(s, p, cmd, t, ParseBacks(s, t.next, Back(cmd)), m);
      AmpsFront(n, rest);
    }
  }

  lemma {:induction false} AmpsUnique(n: nat, rest: seq<Lexeme>, m: nat, rest': seq<Lexeme>)
    requires Amps(n) + rest == Amps(m) + rest' && NoAmp(rest) && NoAmp(rest')
    ensures n == m && rest == rest'
  {
    AmpsHead(n, rest);
    AmpsHead(m, rest');
    if n > 0 && m > 0 {
      AmpsFront(n, rest);
      AmpsFront(m, rest');
      SameCons(Sign('&'), Amps(n - 1) + rest, Sign('&'), Amps(m - 1) + rest');
      AmpsUnique(n - 1, rest, m - 1, rest');
    }
  }

  lemma {:induction false} AmpsHead(n: nat, rest: seq<Lexeme>)
    requires NoAmp(rest)
    ensures n > 0 <==> !NoAmp(Amps(n) + rest)
    ensures n == 0 ==> Amps(n) + rest == rest
  {
    if n > 0 {
      AmpsFront(n, rest);
    }
  }

  // The pipeline and the signs & of parseline.
  lemma {:induction false} JobComplete(s: string, p: int, x: Src, rest: seq<Lexeme>)
    requires TokensAt(s, p, Spell(x) + rest) && IsJob(x) && AfterJob(rest)
    ensures ParsePipe(s, p).Ok?
    ensures var r := ParsePipe(s, p);
            var b := ParseBacks(s, r.pos, r.cmd); TokensAt(s, b.1, rest) && Read(s, b.0) == Mean(x)
    decreases x, 2
  {
    JobIs(x);
    var more := Amps(Count(x)) + rest;
    PlusPlus(Spell(Base(x)), Amps(Count(x)), rest);
    AmpsFollow(Count(x), rest);
    BaseBelow(x);
    PipeComplete(s, p, Base(x), more);
    var r := ParsePipe(s, p);
    var m, rest' := BacksSound(s, r.pos, r.cmd);
    AmpsUnique(Count(x), rest, m, rest');
  }

  lemma {:induction false} AmpsFollow(n: nat, rest: seq<Lexeme>)
    requires AfterJob(rest)
    ensures AfterPipe(Amps(n) + rest) && NoAmp(rest)
  {
    if n == 0 {
      assert Amps(n) + rest == rest;
    } else {
      assert (Amps(n) + rest)[0] == Sign('&');
    }
  }

  // Base(x) is x or a part of it.
  lemma {:induction false} BaseBelow(x: Src)
    ensures Base(x) == x || (x decreases to Base(x))
  {
    if x.Amp? {
      BaseBelow(x.job);
    }
  }

  lemma {:induction false} LineComplete(s: string, p: int, x: Src, rest: seq<Lexeme>)
    requires TokensAt(s, p, Spell(x) + rest) && IsLine(x) && AfterLine(rest)
    ensures Got(s, ParseLine(s, p), Mean(x), rest)
    decreases x, 3
  {
    LineFollow(rest);
    if IsJob(x) {
      JobComplete(s, p, x, rest);
      var r := ParsePipe(s, p);
      var b := ParseBacks(s, r.pos, r.cmd);
      PeekIs(s, b.1, ";");
      LineUnfold(s, p, r, b);
      GotSkip(s, Ok(b.0, b.1), Mean(x), rest, ParseLine(s, p));
    } else {
      var more := Spell(x.right) + rest;
      BetweenSpelled(x.left, ';', x.right, rest);
      SignFollow(';', more);
      JobComplete(s, p, x.left, [Sign(';')] + more);
      var r := ParsePipe(s, p);
      var b := ParseBacks(s, r.pos, r.cmd);
      var t := SignAt(s, b.1, ';', ";", more);
      LineComplete(s, t.next, x.right, rest);
      LineUnfold(s, p, r, b);
      GotList(s, b.0, Mean(x.left), ParseLine(s, t.next), Mean(x.right), rest, ParseLine(s, p));
    }
  }

  // ----- What is parsed, the grammar derives -----

  lemma {:induction false} PeekSign(s: string, p: int, c: char, t: Lexed)
    requires 0 <= p <= |s| && IsSymbol(c) && c != '>' && Peek(s, p, [c]) && t == Lex(s, p)
    ensures t.tok != End && Toks(s, p) == [Sign(c)] + Toks(s, t.next)
  {
    ToksStep(s, p);
  }

  lemma {:induction false} SimpleSound(s: string, p: int) returns (x: Src, rest: seq<Lexeme>)
    requires 0 <= p <= |s| && !Peek(s, p, "(") && ParseExec(s, p).Ok?
    ensures IsUnit(x) && Toks(s, p) == Spell(x) + rest && Got(s, ParseExec(s, p), Mean(x), rest)
  {
    var fs, rest1 := RedirsSound(s, p);
    var r := ParseRedirs(s, p);
    var items1;
    items1, rest := ArgsSound(s, r.pos, [], r.files);
    var items := Tos(fs) + items1;
    TosIs(fs, items1);
    TosSpelled(fs, items1);
    x := Simple(items);
    PlusPlus(SpellFiles(fs), SpellItems(items1), rest);
    assert Texts(s, []) + Args(items1) == Args(items);
  }

  lemma {:induction false} UnitSound(s: string, p: int) returns (x: Src, rest: seq<Lexeme>)
    requires 0 <= p <= |s| && ParseExec(s, p).Ok?
    ensures IsUnit(x) && Toks(s, p) == Spell(x) + rest && Got(s, ParseExec(s, p), Mean(x), rest)
    decreases |s| - p, 1
  {
    if !Peek(s, p, "(") {
      x, rest := SimpleSound(s, p);
    } else {
      var t := Lex(s, p);
      PeekSign(s, p, '(', t);
      var line, close, r := LineSound(s, t.next);
      x, rest := GroupSound(s, p, t, r, line, close);
    }
  }

  lemma {:induction false} GroupSound(s: string, p: int, t: Lexed, r: Result, line: Src, close: seq<Lexeme>)
    returns (x: Src, rest: seq<Lexeme>)
    requires 0 <= p <= |s| && Peek(s, p, "(") && t == Lex(s, p) && r == ParseLine(s, t.next) && ParseExec(s, p).Ok?
    requires Toks(s, p) == [Sign('(')] + Toks(s, t.next)
    requires IsLine(line) && Toks(s, t.next) == Spell(line) + close && Got(s, r, Mean(line), close)
    ensures IsUnit(x) && Toks(s, p) == Spell(x) + rest && Got(s, ParseExec(s, p), Mean(x), rest)
  {
    var u := Lex(s, r.pos);
    PeekSign(s, r.pos, ')', u);
    var fs;
    fs, rest := RedirsSound(s, u.next);
    x := Group(line, fs);
    GroupSpelled(line, fs, rest, close);
    BlockUnfold(s, p, t, r, u, ParseRedirs(s, u.next));
    ReadWrap(s, r.cmd, ParseRedirs(s, u.next).files);
  }

  lemma {:induction false} PipeSound(s: string, p: int) returns (x: Src, rest: seq<Lexeme>)
    requires 0 <= p <= |s| && ParsePipe(s, p).Ok?
    ensures IsPipe(x) && Toks(s, p) == Spell(x) + rest && Got(s, ParsePipe(s, p), Mean(x), rest)
    decreases |s| - p, 2
  {
    var r := ParseExec(s, p);
    var x1, more := UnitSound(s, p);
    PipeUnfold(s, p, r);
    if !Peek(s, r.pos, "|") {
      x, rest := x1, more;
      GotSkip(s, r, Mean(x), rest, ParsePipe(s, p));
    } else {
      var t := Lex(s, r.pos);
      PeekSign(s, r.pos, '|', t);
      var x2;
      x2, rest := PipeSound(s, t.next);
      x := Bar(x1, x2);
      BetweenSpelled(x1, '|', x2, rest);
      GotPipe(s, r, Mean(x1), more, ParsePipe(s, t.next), Mean(x2), rest, ParsePipe(s, p));
    }
  }

  // x with n signs & behind it.
  function Jobs(x: Src, n: nat): Src {
    if n == 0 then x else Amp(Jobs(x, n - 1))
  }

  lemma {:induction false} JobsIs(x: Src, n: nat)
    requires IsPipe(x)
    ensures IsJob(Jobs(x, n)) && Mean(Jobs(x, n)) == Backed(Mean(x), n) && Spell(Jobs(x, n)) == Spell(x) + Amps(n)
  {
    if n == 0 {
      assert Spell(x) + Amps(0) == Spell(x);
    } else {
      JobsIs(x, n - 1);
      AmpsBack(n - 1);
      PlusPlus(Spell(x), Amps(n - 1), [Sign('&')]);
    }
  }

  // The pipeline x and the signs & behind it.
  lemma {:induction false} JobSound(s: string, p: int, r: Result, x: Src, more: seq<Lexeme>)
    returns (x1: Src, rest: seq<Lexeme>, b: (Cmd<Span>, int))
    requires 0 <= p <= |s| && IsPipe(x) && Toks(s, p) == Spell(x) + more && Got(s, r, Mean(x), more)
    ensures b == ParseBacks(s, r.pos, r.cmd) && IsJob(x1) && Toks(s, p) == Spell(x1) + rest
    ensures Got(s, Ok(b.0, b.1), Mean(x1), rest)
  {
    b := ParseBacks(s, r.pos, r.cmd);
    var n;
    n, rest := BacksSound(s, r.pos, r.cmd);
    x1 := Jobs(x, n);
    JobsIs(x, n);
    PlusPlus(Spell(x), Amps(n), rest);
  }

  lemma {:induction false} LineSound(s: string, p: int) returns (x: Src, rest: seq<Lexeme>, r': Result)
    requires 0 <= p <= |s| && ParseLine(s, p).Ok?
    ensures r' == ParseLine(s, p) && IsLine(x) && Toks(s, p) == Spell(x) + rest && Got(s, r', Mean(x), rest)
    decreases |s| - p, 3
  {
    var r := ParsePipe(s, p);
    var x0, more := PipeSound(s, p);
    var x1, rest1, b := JobSound(s, p, r, x0, more);
    LineUnfold(s, p, r, b);
    if !Peek(s, b.1, ";") {
      x, rest, r' := x1, rest1, Ok(b.0, Skip(s, b.1));
      GotSkip(s, Ok(b.0, b.1), Mean(x), rest, r');
    } else {
      var t := Lex(s, b.1);
      PeekSign(s, b.1, ';', t);
      var x2, right;
      x2, rest, right := LineSound(s, t.next);
      x, r' := Semi(x1, x2), Ok(List(b.0, right.cmd), right.pos);
      SemiBack(Toks(s, p), x1, rest1, x2, Toks(s, t.next), rest);
      SemiGot(s, b.0, x1, right, x2, rest, r', x);
    }
  }

  lemma {:induction false} SemiGot(s: string, cmd: Cmd<Span>, x1: Src, right: Result, x2: Src, rest: seq<Lexeme>,
                                   r': Result, x: Src)
    requires Read(s, cmd) == Mean(x1) && Got(s, right, Mean(x2), rest)
    requires r' == Ok(List(cmd, right.cmd), right.pos) && x == Semi(x1, x2)
    ensures Got(s, r', Mean(x), rest)
  {
    GotList(s, cmd, Mean(x1), right, Mean(x2), rest, r');
  }

  lemma {:induction false} SemiBack(ts: seq<Lexeme>, x1: Src, rest1: seq<Lexeme>, x2: Src, ts2: seq<Lexeme>,
                                    rest: seq<Lexeme>)
    requires ts == Spell(x1) + rest1 && rest1 == [Sign(';')] + ts2 && ts2 == Spell(x2) + rest
    ensures ts == Spell(Semi(x1, x2)) + rest
  {
    BetweenSpelled(x1, ';', x2, rest);
  }

  // ----- The parser accepts exactly the language -----

  /** A line whose tokens the grammar derives is parsed, and means what the derivation says. */
  lemma {:induction false} ParseComplete(s: string, x: Src)
    requires IsLine(x) && Toks(s, 0) == Spell(x)
    ensures Parse(s).Ok? && Read(s, Parse(s).cmd) == Mean(x)
  {
    assert Spell(x) + [] == Spell(x);
    LineComplete(s, 0, x, []);
    var pos := ParseLine(s, 0).pos;
    ToksStep(s, pos);
  }

  /** A line that is parsed has tokens that the grammar derives, and the tree is their meaning. */
  lemma {:induction false} ParseSound(s: string) returns (x: Src)
    requires Parse(s).Ok?
    ensures IsLine(x) && Toks(s, 0) == Spell(x) && Read(s, Parse(s).cmd) == Mean(x)
  {
    var rest, r;
    x, rest, r := LineSound(s, 0);
    ToksStep(s, r.pos);
    assert Spell(x) + [] == Spell(x);
  }
}
