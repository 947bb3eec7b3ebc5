/** Printing a command and parsing it again, from text to text. */
module ShellRoundTrip {
  import opened ShellTokens
  import opened ShellGrammar

  predicate WordsOk(c: Cmd<string>) {
    match c
    case Exec(argv) => forall i :: 0 <= i < |argv| ==> IsWord(argv[i])
    case Redir(d, w, _) => IsWord(w) && WordsOk(d)
    case Pipe(l, r) => WordsOk(l) && WordsOk(r)
    case List(l, r) => WordsOk(l) && WordsOk(r)
    case Back(d) => WordsOk(d)
  }

  predicate AllOk(ts: seq<Tok>) { forall i :: 0 <= i < |ts| ==> TokOk(ts[i]) }

  predicate FilesOk(files: seq<File<string>>) { forall i :: 0 <= i < |files| ==> IsWord(files[i].name) }

  // What is printed lexes.

  lemma {:induction false} FileToksOk(files: seq<File<string>>)
    requires FilesOk(files)
    ensures AllOk(FileToks(files))
  {
    if files != [] { FileToksOk(files[1..]); }
  }

  lemma {:induction false} WordToksOk(ws: seq<string>)
    requires forall i :: 0 <= i < |ws| ==> IsWord(ws[i])
    ensures AllOk(WordToks(ws))
  {
    if ws != [] { WordToksOk(ws[1..]); }
  }

  lemma {:induction false} BareOk(c: Cmd<string>)
    requires WordsOk(c)
    ensures WordsOk(Bare(c)) && FilesOk(FilesOf(c))
  {
    if c.Redir? { BareOk(c.cmd); }
  }

  lemma {:induction false} PrintOk(c: Cmd<string>)
    requires WordsOk(c)
    ensures AllOk(LineToks(c)) && AllOk(BackToks(c)) && AllOk(PipeToks(c)) && AllOk(ExecToks(c))
    decreases c, 1
  {
    BareOk(c);
    FileToksOk(FilesOf(c));
    var b := Bare(c);
    if b.Exec? { WordToksOk(b.argv); } else { BodyOk(b); }
    assert AllOk(ExecToks(c));
    assert AllOk(PipeToks(c));
    assert AllOk(BackToks(c));
  }

  lemma {:induction false} BodyOk(c: Cmd<string>)
    requires WordsOk(c) && (c.List? || c.Back? || c.Pipe?)
    ensures AllOk(BodyToks(c))
    decreases c, 0
  {
    match c
    case List(l, r) => PrintOk(l); PrintOk(r);
    case Back(d) => PrintOk(d);
    case Pipe(l, r) => PrintOk(l); PrintOk(r);
  }

  // What is parsed prints.

  predicate Sound(r: Result) { r.Ok? ==> WordsOk(r.cmd) && ArgsOk(r.cmd) && AllOk(r.rest) }

  lemma {:induction false} WrapOk(c: Cmd<string>, files: seq<File<string>>)
    requires WordsOk(c) && ArgsOk(c) && FilesOk(files)
    ensures WordsOk(Wrap(c, files)) && ArgsOk(Wrap(c, files))
  {
    if files != [] { WrapOk(c, files[..|files| - 1]); }
  }

  lemma {:induction false} RedirsSound(files: seq<File<string>>, ts: seq<Tok>)
    requires AllOk(ts) && FilesOk(files)
    ensures var r := ParseRedirs(files, ts); r.Files? ==> FilesOk(r.files) && AllOk(r.rest)
    decreases |ts|
  {
    if StartsFile(ts) && |ts| >= 2 && ts[1].Word? {
      assert TokOk(ts[1]);
      RedirsSound(files + [File(ts[1].w, ts[0] != Sym('<'))], ts[2..]);
    }
  }

  lemma {:induction false} ArgsSound(argv: seq<string>, files: seq<File<string>>, ts: seq<Tok>)
    requires AllOk(ts) && FilesOk(files) && WordsOk(Exec(argv)) && |argv| < MAXARGS
    ensures Sound(ParseArgs(argv, files, ts))
    decreases |ts|
  {
    if ts == [] || Ends(ts) {
      WrapOk(Exec(argv), files);
    } else if ts[0].Word? && |argv| + 1 < MAXARGS {
      assert TokOk(ts[0]);
      RedirsSound(files, ts[1..]);
      var r := ParseRedirs(files, ts[1..]);
      if r.Files? { ArgsSound(argv + [ts[0].w], r.files, r.rest); }
    }
  }

  lemma {:induction false} ExecSound(ts: seq<Tok>)
    requires AllOk(ts)
    ensures Sound(ParseExec(ts))
    decreases |ts|, 1
  {
    if Starts(ts, '(') {
      LineSound(ts[1..]);
      var l := ParseLine(ts[1..]);
      if l.Ok? && Starts(l.rest, ')') {
        RedirsSound([], l.rest[1..]);
        var r := ParseRedirs([], l.rest[1..]);
        if r.Files? { WrapOk(l.cmd, r.files); }
      }
    } else {
      RedirsSound([], ts);
      var r := ParseRedirs([], ts);
      if r.Files? { ArgsSound([], r.files, r.rest); }
    }
  }

  lemma {:induction false} PipeSound(ts: seq<Tok>)
    requires AllOk(ts)
    ensures Sound(ParsePipe(ts))
    decreases |ts|, 2
  {
    ExecSound(ts);
    var r := ParseExec(ts);
    if r.Ok? && Starts(r.rest, '|') { PipeSound(r.rest[1..]); }
  }

  lemma {:induction false} TailSound(c: Cmd<string>, ts: seq<Tok>)
    requires AllOk(ts) && WordsOk(c) && ArgsOk(c)
    ensures Sound(ParseTail(c, ts))
    decreases |ts|, 3
  {
    if Starts(ts, '&') { TailSound(Back(c), ts[1..]); }
    else if Starts(ts, ';') { LineSound(ts[1..]); }
  }

  lemma {:induction false} LineSound(ts: seq<Tok>)
    requires AllOk(ts)
    ensures Sound(ParseLine(ts))
    decreases |ts|, 4
  {
    PipeSound(ts);
    var r := ParsePipe(ts);
    if r.Ok? { TailSound(r.cmd, r.rest); }
  }

  lemma {:induction false} WordLenWord(s: string)
    requires NoNul(s)
    ensures forall i :: 0 <= i < WordLen(s) ==> IsWordChar(s[i])
    ensures s != [] && !IsSpace(s[0]) && !IsSymbol(s[0]) ==> WordLen(s) > 0
  {
    if s != [] && IsWordChar(s[0]) { WordLenWord(s[1..]); }
  }

  lemma {:induction false} ToksOk(s: string)
    requires NoNul(s)
    ensures AllOk(Toks(s))
    decreases |s|
  {
    TrimIs(s);
    var t := Trim(s);
    if t != [] {
      WordLenWord(t);
      assert TokOk(Lex(t).0);
      ToksOk(t[Lex(t).1..]);
    }
  }

  // The two round trips.

  /** A command printed and parsed comes back as it was, exactly when no simple command in it has
      more than nine words. */
  lemma RoundTrip(c: Cmd<string>)
    requires WordsOk(c)
    ensures NoNul(Print(c)) && (ParseCmd(Print(c)) == Parsed(c) <==> ArgsOk(c))
  {
    PrintOk(c);
    var ts := LineToks(c);
    TextToks(ts);
    LineSound(ts);
    if ArgsOk(c) {
      ReadLine(c, []);
      assert ts + [] == ts;
    }
  }

  /** Whatever parses can be printed so that it parses to the same command. */
  lemma Reprint(s: string)
    requires NoNul(s) && ParseCmd(s).Parsed?
    ensures var c := ParseCmd(s).cmd; NoNul(Print(c)) && ParseCmd(Print(c)) == Parsed(c)
  {
    ToksOk(s);
    LineSound(Toks(s));
    RoundTrip(ParseCmd(s).cmd);
  }
}
