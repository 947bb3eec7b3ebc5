/** The command trees of user/sh.c: the parser over tokens, a printer, and the round trip. */
module ShellGrammar {
  import opened ShellTokens

  const MAXARGS: nat := 10

  /** `out` tells output redirection from input. */
  datatype Cmd<W> = Exec(argv: seq<W>) | Redir(cmd: Cmd<W>, file: W, out: bool)
                  | Pipe(left: Cmd<W>, right: Cmd<W>) | List(left: Cmd<W>, right: Cmd<W>) | Back(cmd: Cmd<W>)

  datatype File<W> = File(name: W, out: bool)

  datatype Result = Ok(cmd: Cmd<string>, rest: seq<Tok>) | Err

  datatype Redirs = Files(files: seq<File<string>>, rest: seq<Tok>) | NoFile

  predicate Starts(ts: seq<Tok>, c: char) { ts != [] && ts[0] == Sym(c) }

  predicate Ends(ts: seq<Tok>) { Starts(ts, '|') || Starts(ts, ')') || Starts(ts, '&') || Starts(ts, ';') }

  predicate StartsFile(ts: seq<Tok>) { Starts(ts, '<') || Starts(ts, '>') || Starts(ts, '+') }

  function Wrap<W>(c: Cmd<W>, files: seq<File<W>>): Cmd<W> {
    if files == [] then c
    else Redir(Wrap(c, files[..|files| - 1]), files[|files| - 1].name, files[|files| - 1].out)
  }

  // The parser, with one function for each of the source.

  function ParseRedirs(files: seq<File<string>>, ts: seq<Tok>): (r: Redirs)
    ensures r.Files? ==> |r.rest| <= |ts|
    decreases |ts|
  {
    if !StartsFile(ts) then Files(files, ts)
    else if |ts| < 2 || !ts[1].Word? then NoFile
    else ParseRedirs(files + [File(ts[1].w, ts[0] != Sym('<'))], ts[2..])
  }

  function ParseArgs(argv: seq<string>, files: seq<File<string>>, ts: seq<Tok>): (r: Result)
    ensures r.Ok? ==> |r.rest| <= |ts|
    decreases |ts|
  {
    if ts == [] || Ends(ts) then Ok(Wrap(Exec(argv), files), ts)
    else if !ts[0].Word? || |argv| + 1 >= MAXARGS then Err
    else match ParseRedirs(files, ts[1..])
      case NoFile => Err
      case Files(more, rest) => ParseArgs(argv + [ts[0].w], more, rest)
  }

  function ParseExec(ts: seq<Tok>): (r: Result)
    ensures r.Ok? ==> |r.rest| <= |ts|
    decreases |ts|, 1
  {
    if Starts(ts, '(') then ParseBlock(ts)
    else match ParseRedirs([], ts)
      case NoFile => Err
      case Files(files, rest) => ParseArgs([], files, rest)
  }

  function ParseBlock(ts: seq<Tok>): (r: Result)
    requires Starts(ts, '(')
    ensures r.Ok? ==> |r.rest| <= |ts|
    decreases |ts|, 0
  {
    match ParseLine(ts[1..])
    case Err => Err
    case Ok(c, r) =>
      if !Starts(r, ')') then Err
      else match ParseRedirs([], r[1..])
        case NoFile => Err
        case Files(files, rest) => Ok(Wrap(c, files), rest)
  }

  function ParsePipe(ts: seq<Tok>): (r: Result)
    ensures r.Ok? ==> |r.rest| <= |ts|
    decreases |ts|, 2
  {
    match ParseExec(ts)
    case Err => Err
    case Ok(c, r) =>
      if !Starts(r, '|') then Ok(c, r)
      else match ParsePipe(r[1..])
        case Err => Err
        case Ok(d, rest) => Ok(Pipe(c, d), rest)
  }

  /** The part of parseline after its first pipe. */
  function ParseTail(c: Cmd<string>, ts: seq<Tok>): (r: Result)
    ensures r.Ok? ==> |r.rest| <= |ts|
    decreases |ts|, 3
  {
    if Starts(ts, '&') then ParseTail(Back(c), ts[1..])
    else if Starts(ts, ';') then
      match ParseLine(ts[1..])
      case Err => Err
      case Ok(d, rest) => Ok(List(c, d), rest)
    else Ok(c, ts)
  }

  function ParseLine(ts: seq<Tok>): (r: Result)
    ensures r.Ok? ==> |r.rest| <= |ts|
    decreases |ts|, 4
  {
    match ParsePipe(ts)
    case Err => Err
    case Ok(c, rest) => ParseTail(c, rest)
  }

  datatype Outcome = Parsed(cmd: Cmd<string>) | Panic

  function ParseCmd(s: string): Outcome
    requires NoNul(s)
  {
    match ParseLine(Toks(s))
    case Err => Panic
    case Ok(c, rest) => if rest == [] then Parsed(c) else Panic
  }

  // The printer.

  /** A command without its outer redirections, and these, innermost first. */
  function Bare<W>(c: Cmd<W>): (b: Cmd<W>)
    ensures !b.Redir? && (b == c || b < c)
  {
    if c.Redir? then Bare(c.cmd) else c
  }

  function FilesOf<W>(c: Cmd<W>): seq<File<W>> { if c.Redir? then FilesOf(c.cmd) + [File(c.file, c.out)] else [] }

  function FileToks(files: seq<File<string>>): seq<Tok> {
    if files == [] then []
    else [Sym(if files[0].out then '>' else '<'), Word(files[0].name)] + FileToks(files[1..])
  }

  function WordToks(ws: seq<string>): seq<Tok> { if ws == [] then [] else [Word(ws[0])] + WordToks(ws[1..]) }

  function LineToks(c: Cmd<string>): seq<Tok>
    decreases c, 4
  {
    if c.List? then BodyToks(c) else BackToks(c)
  }

  function BackToks(c: Cmd<string>): seq<Tok>
    decreases c, 3
  {
    if c.Back? then BodyToks(c) else PipeToks(c)
  }

  function PipeToks(c: Cmd<string>): seq<Tok>
    decreases c, 2
  {
    if c.Pipe? then BodyToks(c) else ExecToks(c)
  }

  /** Words or a block in parentheses, and the redirections after them. */
  function ExecToks(c: Cmd<string>): seq<Tok>
    decreases c, 1
  {
    var b := Bare(c);
    (if b.Exec? then WordToks(b.argv) else [Sym('(')] + BodyToks(b) + [Sym(')')]) + FileToks(FilesOf(c))
  }

  function BodyToks(c: Cmd<string>): seq<Tok>
    requires c.List? || c.Back? || c.Pipe?
    decreases c, 0
  {
    match c
    case List(l, r) => BackToks(l) + [Sym(';')] + LineToks(r)
    case Back(d) => BackToks(d) + [Sym('&')]
    case Pipe(l, r) => ExecToks(l) + [Sym('|')] + PipeToks(r)
  }

  function Print(c: Cmd<string>): string { Text(LineToks(c)) }

  // Reading back what was printed.

  /** Every simple command has at most nine words. */
  predicate ArgsOk<W>(c: Cmd<W>) {
    match c
    case Exec(argv) => |argv| < MAXARGS
    case Redir(d, _, _) => ArgsOk(d)
    case Pipe(l, r) => ArgsOk(l) && ArgsOk(r)
    case List(l, r) => ArgsOk(l) && ArgsOk(r)
    case Back(d) => ArgsOk(d)
  }

  lemma {:induction false} WrapBare(c: Cmd<string>)
    ensures Wrap(Bare(c), FilesOf(c)) == c && (ArgsOk(c) ==> ArgsOk(Bare(c)))
  {
    if c.Redir? {
      WrapBare(c.cmd);
      var files := FilesOf(c);
      assert files[..|files| - 1] == FilesOf(c.cmd);
    }
  }

  lemma {:induction false} ReadFiles(done: seq<File<string>>, files: seq<File<string>>, rest: seq<Tok>)
    requires !StartsFile(rest)
    ensures ParseRedirs(done, FileToks(files) + rest) == Files(done + files, rest)
    decreases |files|
  {
    if files == [] {
      assert FileToks(files) + rest == rest && done + files == done;
    } else {
      var ts := FileToks(files) + rest;
      assert ts[2..] == FileToks(files[1..]) + rest;
      ReadFiles(done + [files[0]], files[1..], rest);
      assert done + [files[0]] + files[1..] == done + files;
    }
  }

  lemma OneArg(argv: seq<string>, w: string, more: seq<Tok>)
    requires |argv| + 1 < MAXARGS && ParseRedirs([], more).Files?
    ensures var r := ParseRedirs([], more);
      ParseArgs(argv, [], [Word(w)] + more) == ParseArgs(argv + [w], r.files, r.rest)
  {
    assert ([Word(w)] + more)[1..] == more;
  }

  lemma {:induction false} ReadArgs(argv: seq<string>, ws: seq<string>, files: seq<File<string>>, rest: seq<Tok>)
    requires ws != [] && |argv| + |ws| < MAXARGS && (rest == [] || Ends(rest))
    ensures ParseArgs(argv, [], WordToks(ws) + FileToks(files) + rest) == Ok(Wrap(Exec(argv + ws), files), rest)
    decreases |ws|
  {
    hide Wrap, FileToks;
    var more := WordToks(ws[1..]) + FileToks(files) + rest;
    assert WordToks(ws) + FileToks(files) + rest == [Word(ws[0])] + more;
    if |ws| == 1 {
      assert more == FileToks(files) + rest && [] + files == files && argv + [ws[0]] == argv + ws;
      ReadFiles([], files, rest);
      OneArg(argv, ws[0], more);
    } else {
      assert argv + [ws[0]] + ws[1..] == argv + ws;
      assert more[0] == Word(ws[1]);
      OneArg(argv, ws[0], more);
      hide ParseArgs;
      ReadArgs(argv + [ws[0]], ws[1..], files, rest);
    }
  }

  /** A simple command and its redirections. */
  lemma ReadSimple(argv: seq<string>, files: seq<File<string>>, rest: seq<Tok>)
    requires |argv| < MAXARGS && (rest == [] || Ends(rest))
    ensures ParseExec(WordToks(argv) + FileToks(files) + rest) == Ok(Wrap(Exec(argv), files), rest)
  {
    hide Wrap, ParseExec, ParseRedirs, ParseArgs, FileToks;
    if argv == [] {
      assert WordToks(argv) + FileToks(files) + rest == FileToks(files) + rest;
      ReadBare(files, rest);
    } else {
      assert WordToks(argv)[0] == Word(argv[0]);
      ReadWords(argv, WordToks(argv) + FileToks(files) + rest, files, rest);
    }
  }

  lemma ReadBare(files: seq<File<string>>, rest: seq<Tok>)
    requires rest == [] || Ends(rest)
    ensures ParseExec(FileToks(files) + rest) == Ok(Wrap(Exec([]), files), rest)
  {
    hide Wrap, ParseBlock, ParseRedirs;
    var ts := FileToks(files) + rest;
    assert files != [] ==> ts[0] == Sym(if files[0].out then '>' else '<');
    ReadFiles([], files, rest);
    assert [] + files == files;
  }

  lemma ReadWords(argv: seq<string>, ts: seq<Tok>, files: seq<File<string>>, rest: seq<Tok>)
    requires argv != [] && |argv| < MAXARGS && (rest == [] || Ends(rest))
    requires ts == WordToks(argv) + FileToks(files) + rest && ts != [] && ts[0].Word?
    ensures ParseExec(ts) == Ok(Wrap(Exec(argv), files), rest)
  {
    hide Wrap, ParseBlock, WordToks, FileToks, ParseArgs;
    ReadArgs([], argv, files, rest);
    assert [] + argv == argv;
  }

  lemma {:induction false} ReadExec(c: Cmd<string>, rest: seq<Tok>)
    requires ArgsOk(c) && (rest == [] || Ends(rest))
    ensures ParseExec(ExecToks(c) + rest) == Ok(c, rest)
    decreases c, 1
  {
    WrapBare(c);
    var (b, files) := (Bare(c), FilesOf(c));
    hide ParseExec, ParseLine, WordToks, FileToks, Wrap, BodyToks, Bare, FilesOf;
    if b.Exec? {
      ReadSimple(b.argv, files, rest);
    } else {
      var more := [Sym(')')] + (FileToks(files) + rest);
      ReadBody(b, more);
      ReadBlock(b, BodyToks(b), files, rest);
      assert ExecToks(c) + rest == [Sym('(')] + BodyToks(b) + more;
    }
  }

  lemma ReadBlock(b: Cmd<string>, body: seq<Tok>, files: seq<File<string>>, rest: seq<Tok>)
    requires rest == [] || Ends(rest)
    requires var more := [Sym(')')] + (FileToks(files) + rest); ParseLine(body + more) == Ok(b, more)
    ensures ParseExec([Sym('(')] + body + ([Sym(')')] + (FileToks(files) + rest))) == Ok(Wrap(b, files), rest)
  {
    hide ParseLine, ParseArgs, Wrap, FileToks;
    var more := [Sym(')')] + (FileToks(files) + rest);
    var ts := [Sym('(')] + body + more;
    assert ts[1..] == body + more && more[1..] == FileToks(files) + rest;
    ReadFiles([], files, rest);
    assert [] + files == files;
  }

  lemma {:induction false} ReadPipe(c: Cmd<string>, rest: seq<Tok>)
    requires ArgsOk(c) && (rest == [] || (Ends(rest) && !Starts(rest, '|')))
    ensures ParsePipe(PipeToks(c) + rest) == Ok(c, rest)
    decreases c, 2
  {
    if c.Pipe? {
      var more := [Sym('|')] + PipeToks(c.right) + rest;
      assert BodyToks(c) + rest == ExecToks(c.left) + more && more[1..] == PipeToks(c.right) + rest;
      ReadExec(c.left, more);
      ReadPipe(c.right, rest);
    } else {
      ReadExec(c, rest);
    }
  }

  lemma {:induction false} ReadBack(c: Cmd<string>, rest: seq<Tok>)
    requires ArgsOk(c) && (rest == [] || (Ends(rest) && !Starts(rest, '|')))
    ensures ParseLine(BackToks(c) + rest) == ParseTail(c, rest)
    decreases c, 3
  {
    if c.Back? {
      var more := [Sym('&')] + rest;
      assert BackToks(c) + rest == BackToks(c.cmd) + more && more[1..] == rest;
      ReadBack(c.cmd, more);
    } else {
      ReadPipe(c, rest);
    }
  }

  lemma {:induction false} ReadLine(c: Cmd<string>, rest: seq<Tok>)
    requires ArgsOk(c) && (rest == [] || Starts(rest, ')'))
    ensures ParseLine(LineToks(c) + rest) == Ok(c, rest)
    decreases c, 4
  {
    if c.List? { ReadBody(c, rest); } else { ReadBack(c, rest); }
  }

  lemma {:induction false} ReadBody(c: Cmd<string>, rest: seq<Tok>)
    requires ArgsOk(c) && (c.List? || c.Back? || c.Pipe?) && (rest == [] || Starts(rest, ')'))
    ensures ParseLine(BodyToks(c) + rest) == Ok(c, rest)
    decreases c, 0
  {
    hide ParsePipe, ParseExec, LineToks, BackToks, PipeToks, ExecToks;
    match c
    case List(l, r) =>
      var more := [Sym(';')] + LineToks(r) + rest;
      assert BodyToks(c) + rest == BackToks(l) + more && more[1..] == LineToks(r) + rest;
      ReadBack(l, more);
      ReadLine(r, rest);
    case Back(d) =>
      var more := [Sym('&')] + rest;
      assert BodyToks(c) + rest == BackToks(d) + more && more[1..] == rest;
      ReadBack(d, more);
    case Pipe(l, r) =>
      var more := [Sym('|')] + PipeToks(r) + rest;
      assert BodyToks(c) + rest == ExecToks(l) + more && more[1..] == PipeToks(r) + rest;
      ReadExec(l, more);
      ReadPipe(r, rest);
      ReadPiped(l, r, ExecToks(l) + more, more, rest);
  }

  lemma ReadPiped(l: Cmd<string>, r: Cmd<string>, ts: seq<Tok>, more: seq<Tok>, rest: seq<Tok>)
    requires ParseExec(ts) == Ok(l, more) && Starts(more, '|') && ParsePipe(more[1..]) == Ok(r, rest)
    requires (rest == [] || Starts(rest, ')'))
    ensures ParsePipe(ts) == Ok(Pipe(l, r), rest) && ParseLine(ts) == Ok(Pipe(l, r), rest)
  {
    hide ParseExec;
  }
}
