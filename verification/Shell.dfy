/** user/sh.c: the recursive-descent parser on a cursor into the input buffer, and the in-place
    termination of the words it found. */
module Shell {
  import opened ShellTokens
  import opened ShellGrammar

  /** The characters from `lo` up to `hi`: a pointer and its end pointer. */
  datatype Span = Span(lo: nat, hi: nat)

  /** A span of word characters that cannot be extended to the right. */
  predicate LexedSpan(buf: string, sp: Span) {
    && sp.lo < sp.hi <= |buf| && (forall i :: sp.lo <= i < sp.hi ==> IsWordChar(buf[i]))
    && (sp.hi < |buf| ==> !IsWordChar(buf[sp.hi]))
  }

  predicate Lexed(buf: string, c: Cmd<Span>) {
    match c
    case Exec(argv) => forall i :: 0 <= i < |argv| ==> LexedSpan(buf, argv[i])
    case Redir(d, sp, _) => LexedSpan(buf, sp) && Lexed(buf, d)
    case Pipe(l, r) => Lexed(buf, l) && Lexed(buf, r)
    case List(l, r) => Lexed(buf, l) && Lexed(buf, r)
    case Back(d) => Lexed(buf, d)
  }

  function SpanText(buf: string, sp: Span): string { if sp.lo <= sp.hi <= |buf| then buf[sp.lo..sp.hi] else [] }

  function Words(buf: string, spans: seq<Span>): seq<string> {
    seq(|spans|, i requires 0 <= i < |spans| => SpanText(buf, spans[i]))
  }

  /** The command with the words its spans stand for. */
  function Reading(buf: string, c: Cmd<Span>): Cmd<string> {
    match c
    case Exec(argv) => Exec(Words(buf, argv))
    case Redir(d, sp, out) => Redir(Reading(buf, d), SpanText(buf, sp), out)
    case Pipe(l, r) => Pipe(Reading(buf, l), Reading(buf, r))
    case List(l, r) => List(Reading(buf, l), Reading(buf, r))
    case Back(d) => Back(Reading(buf, d))
  }

  function At(buf: string, s: nat): char { if s < |buf| then buf[s] else NUL }

  function From(buf: string, s: nat): (t: string)
    requires NoNul(buf)
    ensures NoNul(t)
  {
    if s <= |buf| then buf[s..] else []
  }

  lemma TrimStep(buf: string, s: nat)
    requires s < |buf| && IsSpace(buf[s])
    ensures Trim(buf[s..]) == Trim(buf[s + 1..])
  {
    assert buf[s..][1..] == buf[s + 1..];
  }

  lemma WordStep(buf: string, s: nat)
    requires s < |buf|
    ensures WordLen(buf[s..]) == if IsWordChar(buf[s]) then 1 + WordLen(buf[s + 1..]) else 0
  {
    assert buf[s..][1..] == buf[s + 1..];
  }

  method SkipSpace(buf: string, s: nat) returns (t: nat)
    requires NoNul(buf) && s <= |buf|
    ensures s <= t <= |buf| && Trim(buf[s..]) == buf[t..] && (t < |buf| ==> !IsSpace(buf[t]))
  {
    t := s;
    while t < |buf| && IsSpace(buf[t])
      invariant s <= t <= |buf| && Trim(buf[s..]) == Trim(buf[t..])
    {
      TrimStep(buf, t);
      t := t + 1;
    }
  }

  method SkipWord(buf: string, s: nat) returns (t: nat)
    requires NoNul(buf) && s <= |buf|
    ensures s <= t <= |buf| && t - s == WordLen(buf[s..])
    ensures (forall i :: s <= i < t ==> IsWordChar(buf[i])) && (t < |buf| ==> !IsWordChar(buf[t]))
  {
    t := s;
    while t < |buf| && !IsSpace(buf[t]) && !IsSymbol(buf[t])
      invariant s <= t <= |buf| && WordLen(buf[s..]) == t - s + WordLen(buf[t..])
      invariant forall i :: s <= i < t ==> IsWordChar(buf[i])
    {
      WordStep(buf, t);
      t := t + 1;
    }
    if t < |buf| { WordStep(buf, t); }
  }

  /** The next token: its kind, its span, and the cursor after it and the space that follows. */
  method GetToken(buf: string, s: nat) returns (ret: char, q: nat, eq: nat, t: nat)
    requires NoNul(buf) && s <= |buf|
    ensures s <= t <= |buf|
    ensures Toks(From(buf, s)) == [] ==> ret == NUL && t == |buf|
    ensures Toks(From(buf, s)) != [] ==> Toks(From(buf, t)) == Toks(From(buf, s))[1..]
    ensures Toks(From(buf, s)) != [] ==> Reads(buf, Toks(From(buf, s))[0], ret, q, eq)
  {
    hide Toks, Trim, WordLen, From;
    q := SkipSpace(buf, s);
    ret, eq := At(buf, q), q;
    if ret == NUL {
    } else if ret == '>' {
      eq := eq + 1;
      if At(buf, eq) == '>' { ret, eq := '+', eq + 1; }
    } else if IsSymbol(ret) {
      eq := eq + 1;
    } else {
      ret := 'a';
      eq := SkipWord(buf, q);
    }
    t := SkipSpace(buf, eq);
    NextTok(buf, s, q, eq, t);
  }

  predicate Reads(buf: string, tok: Tok, ret: char, q: nat, eq: nat) {
    match tok
    case Sym(c) => ret == c && ret != 'a'
    case Word(w) => ret == 'a' && LexedSpan(buf, Span(q, eq)) && w == SpanText(buf, Span(q, eq))
  }

  lemma NextTok(buf: string, s: nat, q: nat, eq: nat, t: nat)
    requires NoNul(buf) && s <= q <= eq <= t <= |buf| && Trim(buf[s..]) == buf[q..] && Trim(buf[eq..]) == buf[t..]
    requires q < |buf| ==> !IsSpace(buf[q]) && eq == q + Lex(buf[q..]).1
    ensures q == |buf| <==> Toks(From(buf, s)) == []
    ensures q < |buf| ==> Toks(From(buf, s))[0] == Lex(buf[q..]).0 && Toks(From(buf, s))[1..] == Toks(From(buf, t))
  {
    hide Lex, WordLen;
    TrimIs(buf[eq..]);
    if q < |buf| {
      assert buf[q..][eq - q..] == buf[eq..];
      assert Toks(From(buf, s)) == [Lex(buf[q..]).0] + Toks(From(buf, t));
    }
  }

  predicate Looks(ts: seq<Tok>, toks: string) {
    ts != [] && ts[0].Sym? && (ts[0].c in toks || (ts[0].c == '+' && '>' in toks))
  }

  lemma LooksIs(ts: seq<Tok>)
    ensures Looks(ts, "|)&;") == Ends(ts) && Looks(ts, "<>") == StartsFile(ts)
    ensures Looks(ts, "(") == Starts(ts, '(') && Looks(ts, ")") == Starts(ts, ')') && Looks(ts, "|") == Starts(ts, '|')
    ensures Looks(ts, "&") == Starts(ts, '&') && Looks(ts, ";") == Starts(ts, ';')
  {
    if ts != [] && ts[0].Sym? {
      var c := ts[0].c;
      assert c in "|)&;" <==> c == '|' || c == ')' || c == '&' || c == ';';
      assert c in "<>" <==> c == '<' || c == '>';
    }
  }

  /** Skip space, and tell whether one of the symbols `toks` comes next. */
  method Peek(buf: string, s: nat, toks: string) returns (b: bool, t: nat)
    requires NoNul(buf) && s <= |buf| && forall i :: 0 <= i < |toks| ==> IsSymbol(toks[i])
    ensures s <= t <= |buf| && Toks(From(buf, t)) == Toks(From(buf, s)) && b == Looks(Toks(From(buf, s)), toks)
  {
    t := SkipSpace(buf, s);
    b := t < |buf| && buf[t] in toks;
    TrimIs(buf[s..]);
  }

  // The parser.

  datatype Parse = Good(cmd: Cmd<Span>, s: nat) | Fail

  /** The parse reads as the token parser says, and its words are where it says. */
  ghost predicate Agrees(buf: string, r: Parse, spec: Result)
    requires NoNul(buf)
  {
    if spec.Err? then r.Fail?
    else
      && r.Good? && r.s <= |buf| && Lexed(buf, r.cmd)
      && Reading(buf, r.cmd) == spec.cmd && Toks(From(buf, r.s)) == spec.rest
  }

  predicate FilesLexed(buf: string, files: seq<File<Span>>) {
    forall i :: 0 <= i < |files| ==> LexedSpan(buf, files[i].name)
  }

  function FilesReading(buf: string, files: seq<File<Span>>): seq<File<string>> {
    seq(|files|, i requires 0 <= i < |files| => File(SpanText(buf, files[i].name), files[i].out))
  }

  lemma {:induction false} WrapReading(buf: string, c: Cmd<Span>, files: seq<File<Span>>)
    requires Lexed(buf, c) && FilesLexed(buf, files)
    ensures Lexed(buf, Wrap(c, files))
    ensures Reading(buf, Wrap(c, files)) == Wrap(Reading(buf, c), FilesReading(buf, files))
  {
    if files != [] {
      var most := files[..|files| - 1];
      WrapReading(buf, c, most);
      assert FilesReading(buf, files)[..|files| - 1] == FilesReading(buf, most);
    }
  }

  lemma OneRedir(files: seq<File<string>>, ts: seq<Tok>)
    requires StartsFile(ts)
    ensures |ts| < 2 || !ts[1].Word? ==> ParseRedirs(files, ts).NoFile?
    ensures |ts| >= 2 && ts[1].Word? ==>
      ParseRedirs(files, ts) == ParseRedirs(files + [File(ts[1].w, ts[0] != Sym('<'))], ts[1..][1..])
  {
    if |ts| >= 2 { assert ts[1..][1..] == ts[2..]; }
  }

  lemma NoRedir(files: seq<File<string>>, ts: seq<Tok>)
    requires !StartsFile(ts)
    ensures ParseRedirs(files, ts) == Files(files, ts)
  {
  }

  /** Redirections from the cursor on, added to `files`. */
  method RedirsAt(buf: string, s: nat, files: seq<File<Span>>) returns (ok: bool, all: seq<File<Span>>, t: nat)
    requires NoNul(buf) && s <= |buf| && FilesLexed(buf, files)
    ensures s <= t <= |buf| && FilesLexed(buf, all)
    ensures var r := ParseRedirs(FilesReading(buf, files), Toks(From(buf, s)));
      if ok then r == Files(FilesReading(buf, all), Toks(From(buf, t))) else r.NoFile?
  {
    hide Toks, LexedSpan, Looks, ParseRedirs, From, NoNul;
    all := files;
    var more;
    more, t := Peek(buf, s, "<>");
    LooksIs(Toks(From(buf, t)));
    while more
      invariant s <= t <= |buf| && FilesLexed(buf, all) && more == StartsFile(Toks(From(buf, t)))
      invariant (ParseRedirs(FilesReading(buf, files), Toks(From(buf, s)))
                 == ParseRedirs(FilesReading(buf, all), Toks(From(buf, t))))
      decreases |Toks(From(buf, t))|
    {
      ghost var ts := Toks(From(buf, t));
      OneRedir(FilesReading(buf, all), ts);
      var tok, ret, q, eq, q0, e0;
      tok, q0, e0, t := GetToken(buf, t);
      ret, q, eq, t := GetToken(buf, t);
      if ret != 'a' { return false, all, t; }
      ghost var was := all;
      all := all + [File(Span(q, eq), tok != '<')];
      assert FilesReading(buf, all) == FilesReading(buf, was) + [File(ts[1].w, ts[0] != Sym('<'))];
      more, t := Peek(buf, t, "<>");
      LooksIs(Toks(From(buf, t)));
    }
    NoRedir(FilesReading(buf, all), Toks(From(buf, t)));
    ok := true;
  }

  /** A simple command or a block. */
  method ExecAt(buf: string, s: nat) returns (r: Parse)
    requires NoNul(buf) && s <= |buf|
    ensures Agrees(buf, r, ParseExec(Toks(From(buf, s))))
    decreases |Toks(From(buf, s))|, 1
  {
    hide Toks, Agrees, Lexed;
    var b, t: nat;
    b, t := Peek(buf, s, "(");
    if b {
      r := BlockAt(buf, t);
    } else {
      var ok, files;
      ok, files, t := RedirsAt(buf, t, []);
      assert FilesReading(buf, []) == [];
      if !ok {
        FailAgrees(buf, ParseExec(Toks(From(buf, s))));
        return Fail;
      }
      r := ArgsAt(buf, t, files);
    }
  }

  datatype Arg = More(argv: seq<Span>, files: seq<File<Span>>, t: nat) | Last | Bad

  /** The word read takes the token grammar one step on, or fails where it fails. */
  ghost predicate ArgAgrees(buf: string, s: nat, argv: seq<Span>, files: seq<File<Span>>, r: Arg)
    requires NoNul(buf)
  {
    var (ts, spec) := (Toks(From(buf, s)), ParseArgs(Words(buf, argv), FilesReading(buf, files), Toks(From(buf, s))));
    if r.Last? then ts == []
    else if r.Bad? then ts != [] && spec.Err?
    else (
      && ts != [] && r.t <= |buf| && FilesLexed(buf, r.files)
      && Lexed(buf, Exec(r.argv)) && |Toks(From(buf, r.t))| < |ts|
      && spec == ParseArgs(Words(buf, r.argv), FilesReading(buf, r.files), Toks(From(buf, r.t))))
  }

  /** One more word, and the redirections after it. */
  method ArgAt(buf: string, s: nat, argv: seq<Span>, files: seq<File<Span>>) returns (r: Arg)
    requires NoNul(buf) && s <= |buf| && FilesLexed(buf, files) && Lexed(buf, Exec(argv)) && !Ends(Toks(From(buf, s)))
    ensures ArgAgrees(buf, s, argv, files, r)
  {
    hide Toks, LexedSpan, ParseRedirs, Wrap, FilesReading;
    ghost var ts := Toks(From(buf, s));
    var tok, q, eq, t := GetToken(buf, s);
    if tok == NUL {
      assert ts == [] || ts[0] == Sym(NUL);
      SymsOk(From(buf, s));
      return Last;
    }
    if tok != 'a' { return Bad; }
    var argv' := argv + [Span(q, eq)];
    assert Words(buf, argv') == Words(buf, argv) + [ts[0].w];
    if |argv'| >= MAXARGS { return Bad; }
    var ok, files', t' := RedirsAt(buf, t, files);
    if !ok { return Bad; }
    r := More(argv', files', t');
  }

  lemma SymsOk(s: string)
    requires NoNul(s)
    ensures Toks(s) != [] ==> Toks(s)[0] != Sym(NUL)
  {
    TrimIs(s);
  }

  method ArgsAt(buf: string, s: nat, files0: seq<File<Span>>) returns (r: Parse)
    requires NoNul(buf) && s <= |buf| && FilesLexed(buf, files0)
    ensures Agrees(buf, r, ParseArgs([], FilesReading(buf, files0), Toks(From(buf, s))))
  {
    var argv: seq<Span>, files, t: nat, stop := [], files0, s, false;
    ghost var spec := ParseArgs([], FilesReading(buf, files0), Toks(From(buf, s)));
    assert Words(buf, argv) == [];
    hide Toks, LexedSpan, Looks, ParseRedirs, Wrap, FilesReading;
    stop, t := Peek(buf, t, "|)&;");
    LooksIs(Toks(From(buf, t)));
    while !stop
      invariant t <= |buf| && FilesLexed(buf, files) && Lexed(buf, Exec(argv))
      invariant stop == Ends(Toks(From(buf, t)))
      invariant spec == ParseArgs(Words(buf, argv), FilesReading(buf, files), Toks(From(buf, t)))
      decreases |Toks(From(buf, t))|
    {
      var arg := ArgAt(buf, t, argv, files);
      if arg.Last? { break; }
      if arg.Bad? { return Fail; }
      argv, files := arg.argv, arg.files;
      stop, t := Peek(buf, arg.t, "|)&;");
      LooksIs(Toks(From(buf, t)));
    }
    WrapReading(buf, Exec(argv), files);
    r := Good(Wrap(Exec(argv), files), t);
  }

  method BlockAt(buf: string, s: nat) returns (r: Parse)
    requires NoNul(buf) && s <= |buf| && Starts(Toks(From(buf, s)), '(')
    ensures Agrees(buf, r, ParseBlock(Toks(From(buf, s))))
    decreases |Toks(From(buf, s))|, 0
  {
    hide Toks, LexedSpan, Looks, ParseLine, ParseRedirs, Wrap, Reading;
    var tok, q, eq, t: nat, b, ok, files;
    tok, q, eq, t := GetToken(buf, s);
    r := LineAt(buf, t);
    if r.Fail? { return; }
    var cmd := r.cmd;
    b, t := Peek(buf, r.s, ")");
    LooksIs(Toks(From(buf, t)));
    if !b { return Fail; }
    tok, q, eq, t := GetToken(buf, t);
    ok, files, t := RedirsAt(buf, t, []);
    assert FilesReading(buf, []) == [];
    if !ok { return Fail; }
    WrapReading(buf, cmd, files);
    r := Good(Wrap(cmd, files), t);
  }

  method PipeAt(buf: string, s: nat) returns (r: Parse)
    requires NoNul(buf) && s <= |buf|
    ensures Agrees(buf, r, ParsePipe(Toks(From(buf, s))))
    decreases |Toks(From(buf, s))|, 2
  {
    hide Toks, LexedSpan, Looks, ParseExec;
    var tok, q, eq, t: nat, b;
    r := ExecAt(buf, s);
    if r.Fail? { return; }
    var cmd := r.cmd;
    b, t := Peek(buf, r.s, "|");
    LooksIs(Toks(From(buf, t)));
    if b {
      tok, q, eq, t := GetToken(buf, t);
      r := PipeAt(buf, t);
      if r.Fail? { return; }
      r := Good(Pipe(cmd, r.cmd), r.s);
    } else {
      r := Good(cmd, t);
    }
  }

  method LineAt(buf: string, s: nat) returns (r: Parse)
    requires NoNul(buf) && s <= |buf|
    ensures Agrees(buf, r, ParseLine(Toks(From(buf, s))))
    decreases |Toks(From(buf, s))|, 4
  {
    hide Toks, LexedSpan, Reading;
    r := PipeAt(buf, s);
    if r.Good? { r := TailAt(buf, r.cmd, r.s); }
  }

  /** The rest of a line after its first pipe: & and ; . */
  method TailAt(buf: string, first: Cmd<Span>, s: nat) returns (r: Parse)
    requires NoNul(buf) && s <= |buf| && Lexed(buf, first)
    ensures Agrees(buf, r, ParseTail(Reading(buf, first), Toks(From(buf, s))))
    decreases |Toks(From(buf, s))|, 3
  {
    hide Toks, LexedSpan, Looks, ParseLine, ParseTail, From, NoNul, Reads;
    var tok, q, eq, t: nat, b;
    var cmd := first;
    b, t := Peek(buf, s, "&");
    LooksIs(Toks(From(buf, t)));
    while b
      invariant t <= |buf| && Lexed(buf, cmd) && b == Starts(Toks(From(buf, t)), '&')
      invariant |Toks(From(buf, t))| <= |Toks(From(buf, s))|
      invariant ParseTail(Reading(buf, first), Toks(From(buf, s))) == ParseTail(Reading(buf, cmd), Toks(From(buf, t)))
      decreases |Toks(From(buf, t))|
    {
      TailStep(Reading(buf, cmd), Toks(From(buf, t)));
      tok, q, eq, t := GetToken(buf, t);
      cmd := Back(cmd);
      b, t := Peek(buf, t, "&");
      LooksIs(Toks(From(buf, t)));
    }
    b, t := Peek(buf, t, ";");
    LooksIs(Toks(From(buf, t)));
    TailStep(Reading(buf, cmd), Toks(From(buf, t)));
    if b {
      tok, q, eq, t := GetToken(buf, t);
      r := LineAt(buf, t);
      if r.Fail? { return; }
      cmd, t := List(cmd, r.cmd), r.s;
    }
    r := Good(cmd, t);
  }

  lemma TailStep(c: Cmd<string>, ts: seq<Tok>)
    ensures Starts(ts, '&') ==> ParseTail(c, ts) == ParseTail(Back(c), ts[1..])
    ensures !Starts(ts, '&') && !Starts(ts, ';') ==> ParseTail(c, ts) == Ok(c, ts)
    ensures Starts(ts, ';') && ParseLine(ts[1..]).Err? ==> ParseTail(c, ts).Err?
    ensures Starts(ts, ';') && ParseLine(ts[1..]).Ok? ==>
              ParseTail(c, ts) == Ok(List(c, ParseLine(ts[1..]).cmd), ParseLine(ts[1..]).rest)
  {
  }

  lemma FailAgrees(buf: string, spec: Result)
    requires NoNul(buf) && spec.Err?
    ensures Agrees(buf, Fail, spec)
  {
  }

  // Terminating the words in place.

  /** The end positions recorded in a command. */
  function Stops(c: Cmd<Span>): set<nat> {
    match c
    case Exec(argv) => set i | 0 <= i < |argv| :: argv[i].hi
    case Redir(d, sp, _) => Stops(d) + {sp.hi}
    case Pipe(l, r) => Stops(l) + Stops(r)
    case List(l, r) => Stops(l) + Stops(r)
    case Back(d) => Stops(d)
  }

  /** Memory `m` with NUL at the positions `stops`. */
  function Terminated(m: string, stops: set<nat>): string {
    seq(|m|, i requires 0 <= i < |m| => if i in stops then NUL else m[i])
  }

  /** The C string at `p`. */
  function CString(m: string, p: nat): string
    decreases |m| - p
  {
    if p < |m| && m[p] != NUL then [m[p]] + CString(m, p + 1) else []
  }

  /** The command as its pointers read in memory `m`. */
  function InMemory(m: string, c: Cmd<Span>): Cmd<string> {
    match c
    case Exec(argv) => Exec(seq(|argv|, i requires 0 <= i < |argv| => CString(m, argv[i].lo)))
    case Redir(d, sp, out) => Redir(InMemory(m, d), CString(m, sp.lo), out)
    case Pipe(l, r) => Pipe(InMemory(m, l), InMemory(m, r))
    case List(l, r) => List(InMemory(m, l), InMemory(m, r))
    case Back(d) => Back(InMemory(m, d))
  }

  method Nulterminate(a: array<char>, c: Cmd<Span>)
    requires forall e :: e in Stops(c) ==> e < a.Length
    modifies a
    ensures a[..] == Terminated(old(a[..]), Stops(c))
    decreases c
  {
    match c
    case Exec(argv) =>
      for i := 0 to |argv|
        invariant a[..] == Terminated(old(a[..]), Stops(Exec(argv[..i])))
      {
        assert argv[i].hi in Stops(c);
        a[argv[i].hi] := NUL;
        assert Stops(Exec(argv[..i + 1])) == Stops(Exec(argv[..i])) + {argv[i].hi} by { StopsMore(argv, i); }
      }
      assert argv[..|argv|] == argv;
    case Redir(d, sp, _) =>
      assert Stops(c) == Stops(d) + {sp.hi};
      Nulterminate(a, d);
      a[sp.hi] := NUL;
    case Pipe(l, r) =>
      assert Stops(c) == Stops(l) + Stops(r);
      Nulterminate(a, l);
      Nulterminate(a, r);
    case List(l, r) =>
      assert Stops(c) == Stops(l) + Stops(r);
      Nulterminate(a, l);
      Nulterminate(a, r);
    case Back(d) =>
      assert Stops(c) == Stops(d);
      Nulterminate(a, d);
  }

  lemma StopsMore(argv: seq<Span>, i: nat)
    requires i < |argv|
    ensures Stops(Exec(argv[..i + 1])) == Stops(Exec(argv[..i])) + {argv[i].hi}
  {
    var (x, y) := (Stops(Exec(argv[..i + 1])), Stops(Exec(argv[..i])) + {argv[i].hi});
    forall e | e in x ensures e in y {
      var k :| 0 <= k < i + 1 && e == argv[..i + 1][k].hi;
      if k < i { assert argv[..i][k].hi == e; }
    }
    forall e | e in y ensures e in x {
      if e == argv[i].hi { assert argv[..i + 1][i].hi == e; }
      else {
        var k :| 0 <= k < i && e == argv[..i][k].hi;
        assert argv[..i + 1][k].hi == e;
      }
    }
  }

  /** No recorded end lies inside a word. */
  predicate StopOk(buf: string, e: nat) { e <= |buf| && (e < |buf| ==> !IsWordChar(buf[e])) }

  lemma {:induction false} StopsOk(buf: string, c: Cmd<Span>)
    requires Lexed(buf, c)
    ensures forall e :: e in Stops(c) ==> StopOk(buf, e)
  {
    match c
    case Exec(argv) =>
      forall e | e in Stops(c) ensures StopOk(buf, e) {
        var i :| 0 <= i < |argv| && argv[i].hi == e;
        assert LexedSpan(buf, argv[i]);
      }
    case Redir(d, sp, _) => StopsOk(buf, d);
    case Pipe(l, r) => StopsOk(buf, l); StopsOk(buf, r);
    case List(l, r) => StopsOk(buf, l); StopsOk(buf, r);
    case Back(d) => StopsOk(buf, d);
  }

  lemma {:induction false} CStringIs(m: string, p: nat, e: nat)
    requires p <= e < |m| && m[e] == NUL && forall i :: p <= i < e ==> m[i] != NUL
    ensures CString(m, p) == m[p..e]
    decreases e - p
  {
    if p < e {
      CStringIs(m, p + 1, e);
      assert m[p..e] == [m[p]] + m[p + 1..e];
    }
  }

  lemma SpanReads(buf: string, stops: set<nat>, sp: Span)
    requires NoNul(buf) && LexedSpan(buf, sp) && sp.hi in stops && forall e :: e in stops ==> StopOk(buf, e)
    ensures CString(Terminated(buf + [NUL], stops), sp.lo) == SpanText(buf, sp)
  {
    var m := Terminated(buf + [NUL], stops);
    forall i: nat | sp.lo <= i < sp.hi ensures m[i] == buf[i] && m[i] != NUL {
      assert IsWordChar(buf[i]);
      assert !StopOk(buf, i);
    }
    CStringIs(m, sp.lo, sp.hi);
    assert m[sp.lo..sp.hi] == buf[sp.lo..sp.hi];
  }

  /** After the ends are overwritten, every pointer reads as the token that was parsed there. */
  lemma {:induction false} TerminatedReads(buf: string, stops: set<nat>, c: Cmd<Span>)
    requires NoNul(buf) && Lexed(buf, c) && Stops(c) <= stops && forall e :: e in stops ==> StopOk(buf, e)
    ensures InMemory(Terminated(buf + [NUL], stops), c) == Reading(buf, c)
    decreases c
  {
    match c
    case Exec(argv) =>
      forall i | 0 <= i < |argv| ensures CString(Terminated(buf + [NUL], stops), argv[i].lo) == SpanText(buf, argv[i]) {
        assert argv[i].hi in Stops(c);
        SpanReads(buf, stops, argv[i]);
      }
    case Redir(d, sp, _) =>
      assert sp.hi in Stops(c);
      SpanReads(buf, stops, sp);
      TerminatedReads(buf, stops, d);
    case Pipe(l, r) => TerminatedReads(buf, stops, l); TerminatedReads(buf, stops, r);
    case List(l, r) => TerminatedReads(buf, stops, l); TerminatedReads(buf, stops, r);
    case Back(d) => TerminatedReads(buf, stops, d);
  }

  /** parsecmd: parse the C string in `a`, then terminate its words. */
  method CmdOf(a: array<char>, n: nat) returns (r: Parse)
    requires n < a.Length && a[n] == NUL && NoNul(a[..n])
    modifies a
    ensures ParseCmd(old(a[..n])).Panic? ==> r.Fail? && a[..] == old(a[..])
    ensures ParseCmd(old(a[..n])).Parsed? ==> r.Good? && InMemory(a[..n + 1], r.cmd) == ParseCmd(old(a[..n])).cmd
  {
    var buf := a[..n];
    assert a[..n + 1] == buf + [NUL];
    assert From(buf, 0) == buf;
    r := LineAt(buf, 0);
    if r.Fail? { return; }
    var t := SkipSpace(buf, r.s);
    EndIs(buf, r.s, t);
    if t != n { return Fail; }
    StopsOk(buf, r.cmd);
    TerminatedReads(buf, Stops(r.cmd), r.cmd);
    Nulterminate(a, r.cmd);
    assert a[..n + 1] == Terminated(buf + [NUL], Stops(r.cmd));
  }

  lemma EndIs(buf: string, s: nat, t: nat)
    requires NoNul(buf) && s <= t <= |buf| && Trim(buf[s..]) == buf[t..]
    ensures Toks(From(buf, s)) == [] <==> t == |buf|
  {
  }
}
