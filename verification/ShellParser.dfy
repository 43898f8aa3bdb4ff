/** The parser of user/sh.c as it runs: one cursor moved through the line, and tokens cut off in place. */
module ShellParser {
  import opened Shell

  // ----- What the tokens of a parse look like -----

  // A maximal run of plain characters.
  ghost predicate IsToken(s: string, x: Span) {
    && 0 <= x.q < x.eq <= |s| && (forall k :: x.q <= k < x.eq ==> IsPlain(s[k]))
    && (x.eq < |s| ==> !IsPlain(s[x.eq]))
  }

  ghost predicate AllTokens(s: string, c: Cmd<Span>) {
    match c
    case Exec(argv) => forall k :: 0 <= k < |argv| ==> IsToken(s, argv[k])
    case Redir(c, f, _) => AllTokens(s, c) && IsToken(s, f)
    case Pipe(l, r) => AllTokens(s, l) && AllTokens(s, r)
    case List(l, r) => AllTokens(s, l) && AllTokens(s, r)
    case Back(c) => AllTokens(s, c)
  }

  ghost predicate FilesOk(s: string, files: seq<(Span, Kind)>) {
    forall k :: 0 <= k < |files| ==> IsToken(s, files[k].0)
  }

  lemma {:induction false} RedirsTokens(s: string, p: int)
    requires 0 <= p <= |s|
    ensures ParseRedirs(s, p).Redirs? ==> FilesOk(s, ParseRedirs(s, p).files)
    decreases |s| - p
  {
    if Peek(s, p, "<>") {
      var file := Lex(s, Lex(s, p).next);
      if file.tok == Word {
        RedirsTokens(s, file.next);
      }
    }
  }

  lemma {:induction false} WrapTokens(s: string, cmd: Cmd<Span>, files: seq<(Span, Kind)>)
    requires AllTokens(s, cmd) && FilesOk(s, files)
    ensures AllTokens(s, Wrap(cmd, files))
    decreases |files|
  {
    if files != [] {
      WrapTokens(s, Redir(cmd, files[0].0, files[0].1), files[1..]);
    }
  }

  lemma {:induction false} ArgsTokens(s: string, p: int, argv: seq<Span>, files: seq<(Span, Kind)>)
    requires 0 <= p <= |s| && AllTokens(s, Exec(argv)) && FilesOk(s, files)
    ensures ParseArgs(s, p, argv, files).Ok? ==> AllTokens(s, ParseArgs(s, p, argv, files).cmd)
    decreases |s| - p
  {
    WrapTokens(s, Exec(argv), files);
    var t := Lex(s, p);
    if !Peek(s, p, "|)&;") && t.tok == Word && |argv| + 1 < MAXARGS {
      RedirsTokens(s, t.next);
      match ParseRedirs(s, t.next)
      case NoFile =>
      case Redirs(more, pos) => ArgsTokens(s, pos, argv + [t.span], files + more);
    }
  }

  lemma {:induction false} ExecTokens(s: string, p: int)
    requires 0 <= p <= |s|
    ensures ParseExec(s, p).Ok? ==> AllTokens(s, ParseExec(s, p).cmd)
    decreases |s| - p, 1
  {
    if Peek(s, p, "(") {
      BlockTokens(s, p);
    } else {
      RedirsTokens(s, p);
      match ParseRedirs(s, p)
      case NoFile =>
      case Redirs(files, pos) => ArgsTokens(s, pos, [], files);
    }
  }

  lemma {:induction false} BlockTokens(s: string, p: int)
    requires 0 <= p <= |s| && Peek(s, p, "(")
    ensures ParseBlock(s, p).Ok? ==> AllTokens(s, ParseBlock(s, p).cmd)
    decreases |s| - p, 0
  {
    LineTokens(s, Lex(s, p).next);
    match ParseLine(s, Lex(s, p).next)
    case Err(_) =>
    case Ok(cmd, pos) =>
      if Peek(s, pos, ")") {
        RedirsTokens(s, Lex(s, pos).next);
        match ParseRedirs(s, Lex(s, pos).next)
        case NoFile =>
        case Redirs(files, _) => WrapTokens(s, cmd, files);
      }
  }

  lemma {:induction false} PipeTokens(s: string, p: int)
    requires 0 <= p <= |s|
    ensures ParsePipe(s, p).Ok? ==> AllTokens(s, ParsePipe(s, p).cmd)
    decreases |s| - p, 2
  {
    ExecTokens(s, p);
    match ParseExec(s, p)
    case Err(_) =>
    case Ok(cmd, pos) =>
      if Peek(s, pos, "|") {
        PipeTokens(s, Lex(s, pos).next);
      }
  }

  lemma {:induction false} BacksTokens(s: string, p: int, cmd: Cmd<Span>)
    requires 0 <= p <= |s| && AllTokens(s, cmd)
    ensures AllTokens(s, ParseBacks(s, p, cmd).0)
    decreases |s| - p
  {
    if Peek(s, p, "&") {
      BacksTokens(s, Lex(s, p).next, Back(cmd));
    }
  }

  // Every token of a parsed line is a whole word of it.
  lemma {:induction false} LineTokens(s: string, p: int)
    requires 0 <= p <= |s|
    ensures ParseLine(s, p).Ok? ==> AllTokens(s, ParseLine(s, p).cmd)
    decreases |s| - p, 3
  {
    PipeTokens(s, p);
    match ParsePipe(s, p)
    case Err(_) =>
    case Ok(cmd, pos) =>
      BacksTokens(s, pos, cmd);
      var q := ParseBacks(s, pos, cmd).1;
      if Peek(s, q, ";") {
        LineTokens(s, Lex(s, q).next);
      }
  }

  // ----- Cutting tokens off -----

  const NUL := '\0'

  function Ends(c: Cmd<Span>): set<int> {
    match c
    case Exec(argv) => set x | x in argv :: x.eq
    case Redir(c, f, _) => Ends(c) + {f.eq}
    case Pipe(l, r) => Ends(l) + Ends(r)
    case List(l, r) => Ends(l) + Ends(r)
    case Back(c) => Ends(c)
  }

  predicate Uses(c: Cmd<Span>, x: Span) {
    match c
    case Exec(argv) => x in argv
    case Redir(c, f, _) => Uses(c, x) || x == f
    case Pipe(l, r) => Uses(l, x) || Uses(r, x)
    case List(l, r) => Uses(l, x) || Uses(r, x)
    case Back(c) => Uses(c, x)
  }

  // buf with NULs at ends.
  function Cut(buf: seq<char>, ends: set<int>): seq<char> {
    seq(|buf|, i requires 0 <= i < |buf| => if i in ends then NUL else buf[i])
  }

  lemma {:induction false} UsesEnds(s: string, c: Cmd<Span>, x: Span)
    requires AllTokens(s, c) && Uses(c, x)
    ensures x.eq in Ends(c) && IsToken(s, x)
  {
    match c
    case Exec(argv) =>
    case Redir(d, f, _) => if x != f { UsesEnds(s, d, x); }
    case Pipe(l, r) => if Uses(l, x) { UsesEnds(s, l, x); } else { UsesEnds(s, r, x); }
    case List(l, r) => if Uses(l, x) { UsesEnds(s, l, x); } else { UsesEnds(s, r, x); }
    case Back(d) => UsesEnds(s, d, x);
  }

  // No token is cut inside a word.
  lemma {:induction false} EndsApart(s: string, c: Cmd<Span>, e: int)
    requires AllTokens(s, c) && e in Ends(c)
    ensures 0 <= e <= |s| && (e < |s| ==> !IsPlain(s[e]))
  {
    match c
    case Exec(argv) =>
    case Redir(d, f, _) => if e in Ends(d) { EndsApart(s, d, e); }
    case Pipe(l, r) => if e in Ends(l) { EndsApart(s, l, e); } else { EndsApart(s, r, e); }
    case List(l, r) => if e in Ends(l) { EndsApart(s, l, e); } else { EndsApart(s, r, e); }
    case Back(d) => EndsApart(s, d, e);
  }

  // The C string at q.
  ghost predicate CString(buf: seq<char>, q: int, w: string) {
    && 0 <= q && q + |w| < |buf| && buf[q..q + |w|] == w && buf[q + |w|] == NUL
    && forall k :: 0 <= k < |w| ==> w[k] != NUL
  }

  // Once the line's tokens are cut off, each reads as exactly its text.
  lemma TokensReadExactly(s: string, c: Cmd<Span>, x: Span)
    requires Parse(s).Ok? && c == Parse(s).cmd && Uses(c, x) && (forall k :: 0 <= k < |s| ==> s[k] != NUL)
    ensures CString(Cut(s + [NUL], Ends(c)), x.q, Text(s, x))
  {
    LineTokens(s, 0);
    UsesEnds(s, c, x);
    var buf := Cut(s + [NUL], Ends(c));
    forall k | x.q <= k < x.eq ensures buf[k] == s[k] {
      if k in Ends(c) {
        EndsApart(s, c, k);
      }
    }
    assert buf[x.q..x.eq] == s[x.q..x.eq];
  }

  // ----- The parser -----

  // Blanks before the cursor do not matter.
  lemma SkipSame(s: string, p: int, q: int)
    requires 0 <= p <= |s| && q == Skip(s, p)
    ensures Skip(s, q) == q && Lex(s, q) == Lex(s, p)
  {
    SkipNone(s, q);
  }

  lemma RedirsSame(s: string, p: int, q: int)
    requires 0 <= p <= |s| && q == Skip(s, p)
    ensures ParseRedirs(s, q) == ParseRedirs(s, p)
  {
    SkipSame(s, p, q);
  }

  lemma ArgsSame(s: string, p: int, q: int, argv: seq<Span>, files: seq<(Span, Kind)>)
    requires 0 <= p <= |s| && q == Skip(s, p)
    ensures ParseArgs(s, q, argv, files) == ParseArgs(s, p, argv, files)
  {
    SkipSame(s, p, q);
  }

  lemma BlockSame(s: string, p: int, q: int)
    requires 0 <= p <= |s| && q == Skip(s, p) && Peek(s, p, "(")
    ensures Peek(s, q, "(") && ParseBlock(s, q) == ParseBlock(s, p)
  {
    SkipSame(s, p, q);
  }

  // Redirections found, then the rest.
  function Prepend(files: seq<(Span, Kind)>, r: Redirs): Redirs {
    match r
    case NoFile => NoFile
    case Redirs(more, pos) => Redirs(files + more, pos)
  }

  lemma PrependStep(s: string, p: int, files: seq<(Span, Kind)>, op: Lexed, file: Lexed, files': seq<(Span, Kind)>)
    requires 0 <= p <= |s| && Peek(s, p, "<>") && op == Lex(s, p) && file == Lex(s, op.next)
    requires files' == files + [(file.span, KindOf(op.tok))]
    ensures file.tok != Word ==> ParseRedirs(s, p) == NoFile
    ensures file.tok == Word ==> Prepend(files, ParseRedirs(s, p)) == Prepend(files', ParseRedirs(s, file.next))
  {
    if file.tok == Word {
      match ParseRedirs(s, file.next)
      case NoFile =>
      case Redirs(more, _) => Regroup(files, (file.span, KindOf(op.tok)), more);
    }
  }

  lemma PrependLast(s: string, p: int, files: seq<(Span, Kind)>)
    requires 0 <= p <= |s| && !Peek(s, p, "<>") && Skip(s, p) == p
    ensures Prepend(files, ParseRedirs(s, p)) == Redirs(files, p)
  {
    assert files + [] == files;
  }

  lemma Regroup(files: seq<(Span, Kind)>, x: (Span, Kind), more: seq<(Span, Kind)>)
    ensures files + ([x] + more) == (files + [x]) + more
  {
  }

  class Parser {
    const line: string
    var pos: int                 // *ps
    var buf: seq<char>           // the line's bytes, its final NUL included

    ghost predicate Valid()
      reads this
    {
      0 <= pos <= |line| && |buf| == |line| + 1
    }

    constructor (s: string)
      ensures Valid() && line == s && pos == 0 && buf == s + [NUL]
    {
      line, pos, buf := s, 0, s + [NUL];
    }

    method SkipBlanks()
      requires Valid()
      modifies `pos
      ensures Valid() && pos == Skip(line, old(pos))
    {
      while pos < |line| && IsBlank(line[pos])
        invariant Valid() && Skip(line, pos) == Skip(line, old(pos))
      {
        pos := pos + 1;
      }
    }

    method GetToken() returns (tok: Token, span: Span)
      requires Valid()
      modifies `pos
      ensures Valid() && Lexed(tok, span, pos) == Lex(line, old(pos))
    {
      SkipBlanks();
      var q := pos;
      if pos == |line| {
        tok := End;
      } else if line[pos] == '>' {
        pos := pos + 1;
        tok := Symbol('>');
        if pos < |line| && line[pos] == '>' {
          tok := Double;
          pos := pos + 1;
        }
      } else if IsSymbol(line[pos]) {
        tok := Symbol(line[pos]);
        pos := pos + 1;
      } else {
        tok := Word;
        while pos < |line| && IsPlain(line[pos])
          invariant Valid() && q <= pos && WordEnd(line, pos) == WordEnd(line, q)
        {
          pos := pos + 1;
        }
      }
      span := Span(q, pos);
      SkipBlanks();
    }

    method PeekFor(toks: string) returns (b: bool)
      requires Valid()
      modifies `pos
      ensures Valid() && pos == Skip(line, old(pos)) && b == Peek(line, old(pos), toks) == Peek(line, pos, toks)
    {
      SkipBlanks();
      SkipSame(line, old(pos), pos);
      b := pos < |line| && line[pos] in toks;
    }

    // parseredirs: the redirections from the cursor on.
    method Redirects() returns (r: Redirs)
      requires Valid()
      modifies `pos
      ensures Valid() && r == ParseRedirs(line, old(pos)) && (r.Redirs? ==> pos == r.pos)
    {
      var files: seq<(Span, Kind)> := [];
      ghost var whole := ParseRedirs(line, pos);
      var more := PeekFor("<>");
      RedirsSame(line, old(pos), pos);
      PrependNone(ParseRedirs(line, pos));
      while more
        invariant Valid() && Skip(line, pos) == pos && more == Peek(line, pos, "<>")
        invariant whole == Prepend(files, ParseRedirs(line, pos))
        decreases |line| - pos
      {
        ghost var p := pos;
        var op, at := GetToken();
        ghost var lop := Lexed(op, at, pos);
        var tok, file := GetToken();
        var files' := files + [(file, KindOf(op))];
        PrependStep(line, p, files, lop, Lexed(tok, file, pos), files');
        if tok != Word {
          return NoFile;
        }
        files := files';
        ghost var q := pos;
        more := PeekFor("<>");
        RedirsSame(line, q, pos);
      }
      r := Redirs(files, pos);
      PrependLast(line, pos, files);
    }

    // parseexec past its first redirections: the argument loop.
    method Arguments(files0: seq<(Span, Kind)>) returns (r: Result)
      requires Valid()
      modifies `pos
      ensures Valid() && r == ParseArgs(line, old(pos), [], files0) && (r.Ok? ==> pos == r.pos)
    {
      var argv: seq<Span>, files := [], files0;
      var stop := PeekFor("|)&;");
      ArgsSame(line, old(pos), pos, argv, files);
      while !stop
        invariant Valid() && Skip(line, pos) == pos && stop == Peek(line, pos, "|)&;") && |argv| < MAXARGS
        invariant ParseArgs(line, old(pos), [], files0) == ParseArgs(line, pos, argv, files)
        decreases |line| - pos
      {
        var tok, q := GetToken();
        if tok == End {
          return Ok(Wrap(Exec(argv), files), pos);
        }
        if tok != Word {
          return Err(Syntax);
        }
        if |argv| + 1 >= MAXARGS {
          return Err(TooManyArgs);
        }
        var more := Redirects();
        if more == NoFile {
          return Err(MissingFile);
        }
        argv, files := argv + [q], files + more.files;
        ghost var p := pos;
        stop := PeekFor("|)&;");
        ArgsSame(line, p, pos, argv, files);
      }
      r := Ok(Wrap(Exec(argv), files), pos);
    }

    method Execute() returns (r: Result)
      requires Valid()
      modifies `pos
      ensures Valid() && r == ParseExec(line, old(pos)) && (r.Ok? ==> pos == r.pos)
      decreases |line| - pos, 1
    {
      var open := PeekFor("(");
      if open {
        BlockSame(line, old(pos), pos);
        r := Block();
        return;
      }
      RedirsSame(line, old(pos), pos);
      var files := Redirects();
      if files == NoFile {
        return Err(MissingFile);
      }
      r := Arguments(files.files);
    }

    method Block() returns (r: Result)
      requires Valid() && Peek(line, pos, "(")
      modifies `pos
      ensures Valid() && r == ParseBlock(line, old(pos)) && (r.Ok? ==> pos == r.pos)
      decreases |line| - pos, 0
    {
      var tok, q := GetToken();
      r := Line();
      if r.Err? {
        return;
      }
      ghost var p := pos;
      var close := PeekFor(")");
      SkipSame(line, p, pos);
      if !close {
        return Err(MissingParen);
      }
      tok, q := GetToken();
      var files := Redirects();
      if files == NoFile {
        return Err(MissingFile);
      }
      r := Ok(Wrap(r.cmd, files.files), pos);
    }

    method Pipeline() returns (r: Result)
      requires Valid()
      modifies `pos
      ensures Valid() && r == ParsePipe(line, old(pos)) && (r.Ok? ==> pos == r.pos)
      decreases |line| - pos, 2
    {
      r := Execute();
      if r.Err? {
        return;
      }
      ghost var p := pos;
      var bar := PeekFor("|");
      SkipSame(line, p, pos);
      if !bar {
        return Ok(r.cmd, pos);
      }
      var tok, q := GetToken();
      var right := Pipeline();
      if right.Err? {
        return right;
      }
      r := Ok(Cmd.Pipe(r.cmd, right.cmd), pos);
    }

    // The & loop of parseline.
    method Backs(cmd0: Cmd<Span>) returns (cmd: Cmd<Span>)
      requires Valid()
      modifies `pos
      ensures Valid() && (cmd, pos) == ParseBacks(line, old(pos), cmd0) && Skip(line, pos) == pos
    {
      cmd := cmd0;
      var amp := PeekFor("&");
      SkipSame(line, old(pos), pos);
      while amp
        invariant Valid() && Skip(line, pos) == pos && amp == Peek(line, pos, "&")
        invariant ParseBacks(line, old(pos), cmd0) == ParseBacks(line, pos, cmd)
        decreases |line| - pos
      {
        var tok, at := GetToken();
        cmd := Back(cmd);
        ghost var p := pos;
        amp := PeekFor("&");
        SkipSame(line, p, pos);
      }
    }

    method Line() returns (r: Result)
      requires Valid()
      modifies `pos
      ensures Valid() && r == ParseLine(line, old(pos)) && (r.Ok? ==> pos == r.pos)
      decreases |line| - pos, 3
    {
      r := Pipeline();
      if r.Err? {
        return;
      }
      var cmd := Backs(r.cmd);
      var semi := PeekFor(";");
      if !semi {
        return Ok(cmd, pos);
      }
      var tok, q := GetToken();
      var right := Line();
      if right.Err? {
        return right;
      }
      r := Ok(List(cmd, right.cmd), pos);
    }

    // nulterminate: a NUL behind every token of the tree.
    method NulTerminate(cmd: Cmd<Span>)
      requires Valid() && AllTokens(line, cmd)
      modifies `buf
      ensures Valid() && buf == Cut(old(buf), Ends(cmd))
      decreases cmd
    {
      match cmd
      case Exec(argv) =>
        var i := 0;
        while i < |argv|
          invariant 0 <= i <= |argv| && Valid() && buf == Cut(old(buf), Ends(Exec(argv[..i])))
        {
          assert IsToken(line, argv[i]);
          assert argv[..i + 1] == argv[..i] + [argv[i]];
          CutOne(old(buf), Ends(Exec(argv[..i])), argv[i].eq);
          assert Ends(Exec(argv[..i + 1])) == Ends(Exec(argv[..i])) + {argv[i].eq};
          buf := buf[argv[i].eq := NUL];
          i := i + 1;
        }
        assert argv[..i] == argv;
      case Redir(c, f, _) =>
        NulTerminate(c);
        CutOne(old(buf), Ends(c), f.eq);
        buf := buf[f.eq := NUL];
      case Pipe(l, r) =>
        NulTerminate(l);
        NulTerminate(r);
        CutTwice(old(buf), Ends(l), Ends(r));
      case List(l, r) =>
        NulTerminate(l);
        NulTerminate(r);
        CutTwice(old(buf), Ends(l), Ends(r));
      case Back(c) =>
        NulTerminate(c);
    }

    // parsecmd: the whole line, its tokens cut off in place.
    method ParseCmd() returns (r: Result)
      requires Valid() && pos == 0 && buf == line + [NUL]
      modifies this
      ensures Valid() && r == Parse(line)
      ensures r.Ok? ==> buf == Cut(line + [NUL], Ends(r.cmd))
    {
      r := Line();
      if r.Err? {
        return;
      }
      var none := PeekFor("");
      if pos != |line| {
        return Err(Leftovers);
      }
      LineTokens(line, 0);
      r := Ok(r.cmd, |line|);
      NulTerminate(r.cmd);
    }
  }

  lemma CutOne(buf: seq<char>, ends: set<int>, e: int)
    requires 0 <= e < |buf|
    ensures Cut(buf, ends)[e := NUL] == Cut(buf, ends + {e})
  {
  }

  lemma CutTwice(buf: seq<char>, a: set<int>, b: set<int>)
    ensures Cut(Cut(buf, a), b) == Cut(buf, a + b)
  {
  }

  lemma PrependNone(r: Redirs)
    ensures Prepend([], r) == r
  {
    match r
    case NoFile =>
    case Redirs(more, _) => assert [] + more == more;
  }
}
