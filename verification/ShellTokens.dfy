/** The words and symbols of user/sh.c. */
module ShellTokens {
  const NUL: char := '\0'

  predicate IsSpace(c: char) { c == ' ' || c == '\t' || c == '\r' || c == '\n' || c == '\U{B}' }

  predicate IsSymbol(c: char) { c == '<' || c == '|' || c == '>' || c == '&' || c == ';' || c == '(' || c == ')' }

  predicate IsWordChar(c: char) { !IsSpace(c) && !IsSymbol(c) && c != NUL }

  /** Sym('+') is the symbol >>. */
  datatype Tok = Sym(c: char) | Word(w: string)

  function Trim(s: string): string { if s != [] && IsSpace(s[0]) then Trim(s[1..]) else s }

  /** The number of word characters that `s` starts with. */
  function WordLen(s: string): (n: nat)
    ensures n <= |s|
  {
    if s != [] && IsWordChar(s[0]) then 1 + WordLen(s[1..]) else 0
  }

  /** The first token of `s`, which starts with one, and how long it is. */
  function Lex(s: string): (r: (Tok, nat))
    requires s != [] && !IsSpace(s[0]) && s[0] != NUL
    ensures 0 < r.1 <= |s|
  {
    if s[0] == '>' then (if |s| > 1 && s[1] == '>' then (Sym('+'), 2) else (Sym('>'), 1))
    else if IsSymbol(s[0]) then (Sym(s[0]), 1)
    else (Word(s[..WordLen(s)]), WordLen(s))
  }

  predicate NoNul(s: string) { forall i :: 0 <= i < |s| ==> s[i] != NUL }

  lemma TrimIs(s: string)
    requires NoNul(s)
    ensures NoNul(Trim(s)) && |Trim(s)| <= |s| && (Trim(s) != [] ==> !IsSpace(Trim(s)[0])) && Trim(Trim(s)) == Trim(s)
    ensures Trim(s) == s[|s| - |Trim(s)|..]
  {
    if s != [] && IsSpace(s[0]) { TrimIs(s[1..]); }
  }

  /** All the tokens of `s`. */
  function Toks(s: string): seq<Tok>
    requires NoNul(s)
    decreases |s|
  {
    TrimIs(s);
    var t := Trim(s);
    if t == [] then [] else [Lex(t).0] + Toks(t[Lex(t).1..])
  }

  // Printing tokens, each with a space after it.

  function TokText(t: Tok): string {
    match t
    case Sym(c) => if c == '+' then ">>" else [c]
    case Word(w) => w
  }

  predicate IsWord(w: string) { w != [] && forall i :: 0 <= i < |w| ==> IsWordChar(w[i]) }

  predicate TokOk(t: Tok) {
    match t
    case Sym(c) => c == '+' || IsSymbol(c)
    case Word(w) => IsWord(w)
  }

  function Text(ts: seq<Tok>): string { if ts == [] then [] else TokText(ts[0]) + " " + Text(ts[1..]) }

  lemma {:induction false} WordLenIs(w: string, rest: string)
    requires forall i :: 0 <= i < |w| ==> IsWordChar(w[i])
    requires rest == [] || !IsWordChar(rest[0])
    ensures WordLen(w + rest) == |w|
  {
    if w == [] {
      assert w + rest == rest;
    } else {
      assert (w + rest)[1..] == w[1..] + rest;
      WordLenIs(w[1..], rest);
    }
  }

  /** A printed token list is read back token by token. */
  lemma {:induction false} TextToks(ts: seq<Tok>)
    requires forall i :: 0 <= i < |ts| ==> TokOk(ts[i])
    ensures NoNul(Text(ts)) && Toks(Text(ts)) == ts
  {
    if ts != [] {
      var (x, rest) := (TokText(ts[0]), " " + Text(ts[1..]));
      assert TokOk(ts[0]);
      TextToks(ts[1..]);
      assert Text(ts) == x + rest;
      assert Trim(Text(ts)) == Text(ts);
      if ts[0].Word? {
        WordLenIs(x, rest);
        assert (x + rest)[..|x|] == x;
      }
      assert Lex(Text(ts)) == (ts[0], |x|);
      assert Text(ts)[|x|..] == rest && rest[1..] == Text(ts[1..]);
      SpaceToks(Text(ts[1..]));
    }
  }

  lemma SpaceToks(s: string)
    requires NoNul(s)
    ensures NoNul(" " + s) && Toks(" " + s) == Toks(s)
  {
    assert (" " + s)[1..] == s;
    assert Trim(" " + s) == Trim(s);
  }
}
