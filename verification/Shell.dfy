/** The tokens of user/sh.c and its parsing functions as functions of the line. */
module Shell {
  const MAXARGS := 10

  datatype Kind = Input | Output | Append
  datatype Cmd<T> = Exec(argv: seq<T>) | Redir(cmd: Cmd<T>, file: T, kind: Kind)
                  | Pipe(left: Cmd<T>, right: Cmd<T>) | List(left: Cmd<T>, right: Cmd<T>) | Back(cmd: Cmd<T>)

  // A token of the line: q up to eq.
  datatype Span = Span(q: int, eq: int)

  datatype Error = MissingFile | Syntax | TooManyArgs | MissingParen | Leftovers
  datatype Result = Ok(cmd: Cmd<Span>, pos: int) | Err(error: Error)

  datatype Token = End | Symbol(c: char) | Double | Word
  datatype Lexed = Lexed(tok: Token, span: Span, next: int)

  predicate IsBlank(c: char) {
    c == ' ' || c == '\t' || c == '\r' || c == '\n' || c == '\U{0B}'
  }

  predicate IsSymbol(c: char) {
    c == '<' || c == '|' || c == '>' || c == '&' || c == ';' || c == '(' || c == ')'
  }

  predicate IsPlain(c: char) {
    !IsBlank(c) && !IsSymbol(c)
  }

  // ----- Tokens -----

  function Skip(s: string, p: int): (r: int)
    requires 0 <= p <= |s|
    ensures p <= r <= |s| && (r < |s| ==> !IsBlank(s[r])) && forall k :: p <= k < r ==> IsBlank(s[k])
    decreases |s| - p
  {
    if p < |s| && IsBlank(s[p]) then Skip(s, p + 1) else p
  }

  function WordEnd(s: string, p: int): (r: int)
    requires 0 <= p <= |s|
    ensures p <= r <= |s| && (r < |s| ==> !IsPlain(s[r])) && forall k :: p <= k < r ==> IsPlain(s[k])
    decreases |s| - p
  {
    if p < |s| && IsPlain(s[p]) then WordEnd(s, p + 1) else p
  }

  // The token at p, and where the next one starts.
  function Lex(s: string, p: int): (r: Lexed)
    requires 0 <= p <= |s|
    ensures p <= r.span.q <= r.span.eq <= r.next <= |s|
    ensures r.tok == End <==> Skip(s, p) == |s|
    ensures r.tok != End ==> r.span.q < r.span.eq
  {
    var q := Skip(s, p);
    if q == |s| then Lexed(End, Span(q, q), q)
    else if s[q] == '>' && q + 1 < |s| && s[q + 1] == '>' then Lexed(Double, Span(q, q + 2), Skip(s, q + 2))
    else if IsSymbol(s[q]) then Lexed(Symbol(s[q]), Span(q, q + 1), Skip(s, q + 1))
    else Lexed(Word, Span(q, WordEnd(s, q)), Skip(s, WordEnd(s, q)))
  }

  // Is the next character one of toks?
  predicate Peek(s: string, p: int, toks: string)
    requires 0 <= p <= |s|
  {
    Skip(s, p) < |s| && s[Skip(s, p)] in toks
  }

  // ----- Grammar -----

  datatype Redirs = Redirs(files: seq<(Span, Kind)>, pos: int) | NoFile

  function KindOf(op: Token): Kind {
    if op == Symbol('<') then Input else if op == Double then Append else Output
  }

  // The redirections from p on.
  function ParseRedirs(s: string, p: int): (r: Redirs)
    requires 0 <= p <= |s|
    ensures r.Redirs? ==> p <= r.pos <= |s|
    decreases |s| - p
  {
    if !Peek(s, p, "<>") then Redirs([], Skip(s, p))
    else
      var op := Lex(s, p);
      var file := Lex(s, op.next);
      if file.tok != Word then NoFile
      else
        match ParseRedirs(s, file.next)
        case NoFile => NoFile
        case Redirs(files, pos) => Redirs([(file.span, KindOf(op.tok))] + files, pos)
  }

  // cmd with redirections around it, the first innermost.
  function Wrap<T>(cmd: Cmd<T>, files: seq<(T, Kind)>): Cmd<T>
    decreases |files|
  {
    if files == [] then cmd else Wrap(Redir(cmd, files[0].0, files[0].1), files[1..])
  }

  // The arguments and redirections of a simple command, argv and files being those so far.
  function ParseArgs(s: string, p: int, argv: seq<Span>, files: seq<(Span, Kind)>): (r: Result)
    requires 0 <= p <= |s|
    ensures r.Ok? ==> p <= r.pos <= |s|
    decreases |s| - p
  {
    if Peek(s, p, "|)&;") then Ok(Wrap(Exec(argv), files), Skip(s, p))
    else
      var t := Lex(s, p);
      if t.tok == End then Ok(Wrap(Exec(argv), files), t.next)
      else if t.tok != Word then Err(Syntax)
      else if |argv| + 1 >= MAXARGS then Err(TooManyArgs)
      else match ParseRedirs(s, t.next)
        case NoFile => Err(MissingFile)
        case Redirs(more, pos) => ParseArgs(s, pos, argv + [t.span], files + more)
  }

  function ParseExec(s: string, p: int): (r: Result)
    requires 0 <= p <= |s|
    ensures r.Ok? ==> p <= r.pos <= |s|
    decreases |s| - p, 1
  {
    if Peek(s, p, "(") then ParseBlock(s, p)
    else match ParseRedirs(s, p)
      case NoFile => Err(MissingFile)
      case Redirs(files, pos) => ParseArgs(s, pos, [], files)
  }

  function ParseBlock(s: string, p: int): (r: Result)
    requires 0 <= p <= |s| && Peek(s, p, "(")
    ensures r.Ok? ==> p <= r.pos <= |s|
    decreases |s| - p, 0
  {
    match ParseLine(s, Lex(s, p).next)
    case Err(e) => Err(e)
    case Ok(cmd, pos) =>
      if !Peek(s, pos, ")") then Err(MissingParen)
      else match ParseRedirs(s, Lex(s, pos).next)
        case NoFile => Err(MissingFile)
        case Redirs(files, end) => Ok(Wrap(cmd, files), end)
  }

  function ParsePipe(s: string, p: int): (r: Result)
    requires 0 <= p <= |s|
    ensures r.Ok? ==> p <= r.pos <= |s|
    decreases |s| - p, 2
  {
    match ParseExec(s, p)
    case Err(e) => Err(e)
    case Ok(cmd, pos) =>
      if !Peek(s, pos, "|") then Ok(cmd, Skip(s, pos))
      else match ParsePipe(s, Lex(s, pos).next)
        case Err(e) => Err(e)
        case Ok(right, end) => Ok(Pipe(cmd, right), end)
  }

  // The & signs after cmd.
  function ParseBacks(s: string, p: int, cmd: Cmd<Span>): (r: (Cmd<Span>, int))
    requires 0 <= p <= |s|
    ensures p <= r.1 <= |s|
    decreases |s| - p
  {
    if Peek(s, p, "&") then ParseBacks(s, Lex(s, p).next, Back(cmd)) else (cmd, Skip(s, p))
  }

  function ParseLine(s: string, p: int): (r: Result)
    requires 0 <= p <= |s|
    ensures r.Ok? ==> p <= r.pos <= |s|
    decreases |s| - p, 3
  {
    match ParsePipe(s, p)
    case Err(e) => Err(e)
    case Ok(cmd, pos) =>
      var (cmd, pos) := ParseBacks(s, pos, cmd);
      if !Peek(s, pos, ";") then Ok(cmd, Skip(s, pos))
      else match ParseLine(s, Lex(s, pos).next)
        case Err(e) => Err(e)
        case Ok(right, end) => Ok(List(cmd, right), end)
  }

  function Parse(s: string): Result {
    match ParseLine(s, 0)
    case Err(e) => Err(e)
    case Ok(cmd, pos) => if Skip(s, pos) != |s| then Err(Leftovers) else Ok(cmd, |s|)
  }

  // ----- The text behind a tree -----

  // The text of a token, and of a tree of tokens.
  function Text(s: string, x: Span): string {
    if 0 <= x.q <= x.eq <= |s| then s[x.q..x.eq] else ""
  }

  function Texts(s: string, argv: seq<Span>): seq<string> {
    seq(|argv|, k requires 0 <= k < |argv| => Text(s, argv[k]))
  }

  function Read(s: string, c: Cmd<Span>): Cmd<string> {
    match c
    case Exec(argv) => Exec(Texts(s, argv))
    case Redir(c, f, kind) => Redir(Read(s, c), Text(s, f), kind)
    case Pipe(l, r) => Pipe(Read(s, l), Read(s, r))
    case List(l, r) => List(Read(s, l), Read(s, r))
    case Back(c) => Back(Read(s, c))
  }

  lemma SkipNone(s: string, p: int)
    requires 0 <= p <= |s| && (p < |s| ==> !IsBlank(s[p]))
    ensures Skip(s, p) == p
  {
  }
}
