/** user/grep.c: the matcher decides a declarative meaning of patterns. */
module Grep {
  /** A pattern character, once or starred. */
  datatype Item = One(c: char) | Many(c: char)

  /** The items of a pattern, and whether a final $ ends it. */
  datatype Pattern = Pattern(items: seq<Item>, atEnd: bool)

  function Items(re: string): Pattern {
    if re == [] then Pattern([], false)
    else if |re| > 1 && re[1] == '*' then var p := Items(re[2..]); Pattern([Many(re[0])] + p.items, p.atEnd)
    else if re == "$" then Pattern([], true)
    else var p := Items(re[1..]); Pattern([One(re[0])] + p.items, p.atEnd)
  }

  predicate Same(c: char, t: char) { c == '.' || c == t }

  predicate SegmentOk(x: Item, s: string) {
    match x
    case One(c) => |s| == 1 && Same(c, s[0])
    case Many(c) => forall i :: 0 <= i < |s| ==> Same(c, s[i])
  }

  function Join(segments: seq<string>): string { if segments == [] then [] else segments[0] + Join(segments[1..]) }

  predicate Splits(items: seq<Item>, s: string, segments: seq<string>) {
    |segments| == |items| && Join(segments) == s && forall i :: 0 <= i < |items| ==> SegmentOk(items[i], segments[i])
  }

  /** `s` is a concatenation of one segment for each item. */
  ghost predicate Accepts(items: seq<Item>, s: string) { exists segments :: Splits(items, s, segments) }

  ghost predicate AcceptsPrefix(p: Pattern, text: string, k: nat) {
    k <= |text| && (p.atEnd ==> k == |text|) && Accepts(p.items, text[..k])
  }

  /** The pattern matches at the start of the text. */
  ghost predicate Here(re: string, text: string) { exists k: nat :: AcceptsPrefix(Items(re), text, k) }

  /** The pattern matches somewhere, or at the start under a leading ^. */
  ghost predicate Matches(re: string, text: string) {
    if re != [] && re[0] == '^' then Here(re[1..], text)
    else exists k :: 0 <= k <= |text| && Here(re, text[k..])
  }

  // Unfolding one item.

  lemma AcceptsNone(s: string)
    ensures Accepts([], s) <==> s == []
  {
    assert s == [] ==> Splits([], s, []);
  }

  lemma AcceptsFirst(x: Item, rest: seq<Item>, s: string, j: nat)
    requires j <= |s| && SegmentOk(x, s[..j]) && Accepts(rest, s[j..])
    ensures Accepts([x] + rest, s)
  {
    var segments :| Splits(rest, s[j..], segments);
    var all := [s[..j]] + segments;
    assert all[1..] == segments && s == s[..j] + s[j..];
    assert Splits([x] + rest, s, all);
  }

  lemma FirstAccepted(x: Item, rest: seq<Item>, s: string) returns (j: nat)
    requires Accepts([x] + rest, s)
    ensures j <= |s| && SegmentOk(x, s[..j]) && Accepts(rest, s[j..])
  {
    var segments :| Splits([x] + rest, s, segments);
    j := |segments[0]|;
    assert s == segments[0] + Join(segments[1..]);
    assert s[..j] == segments[0] && s[j..] == Join(segments[1..]);
    assert ([x] + rest)[0] == x;
    forall i | 0 <= i < |rest| ensures SegmentOk(rest[i], segments[1..][i]) { assert ([x] + rest)[i + 1] == rest[i]; }
    assert Splits(rest, s[j..], segments[1..]);
  }

  /** After a first segment of length `j`, the rest of the pattern matches the rest of the text. */
  lemma HereAfter(x: Item, p: Pattern, text: string, j: nat, k: nat)
    requires j <= |text| && SegmentOk(x, text[..j]) && AcceptsPrefix(p, text[j..], k)
    ensures AcceptsPrefix(Pattern([x] + p.items, p.atEnd), text, j + k)
  {
    var s := text[..j + k];
    assert s[..j] == text[..j] && s[j..] == text[j..][..k];
    AcceptsFirst(x, p.items, s, j);
  }

  lemma AfterHere(x: Item, p: Pattern, text: string, k: nat) returns (j: nat)
    requires AcceptsPrefix(Pattern([x] + p.items, p.atEnd), text, k)
    ensures j <= k <= |text| && SegmentOk(x, text[..j]) && AcceptsPrefix(p, text[j..], k - j)
  {
    var s := text[..k];
    j := FirstAccepted(x, p.items, s);
    assert s[..j] == text[..j] && s[j..] == text[j..][..k - j];
  }

  lemma HereEmpty(text: string)
    ensures Here([], text) && (Here("$", text) <==> text == [])
  {
    AcceptsNone([]);
    assert text[..0] == [] && AcceptsPrefix(Items([]), text, 0);
    assert text == [] ==> AcceptsPrefix(Items("$"), text, 0);
    forall k: nat | AcceptsPrefix(Items("$"), text, k) ensures text == [] { AcceptsNone(text[..k]); }
  }

  lemma HereOne(re: string, text: string)
    requires re != [] && !(|re| > 1 && re[1] == '*') && re != "$"
    ensures Here(re, text) <==> text != [] && Same(re[0], text[0]) && Here(re[1..], text[1..])
  {
    var (x, p) := (One(re[0]), Items(re[1..]));
    if Here(re, text) {
      var k: nat :| AcceptsPrefix(Items(re), text, k);
      var j := AfterHere(x, p, text, k);
      assert j == 1 && AcceptsPrefix(p, text[1..], k - 1);
    }
    if text != [] && Same(re[0], text[0]) && Here(re[1..], text[1..]) {
      var k: nat :| AcceptsPrefix(p, text[1..], k);
      HereAfter(x, p, text, 1, k);
      assert AcceptsPrefix(Items(re), text, 1 + k);
    }
  }

  /** A starred character takes some run of the text that it stands for. */
  ghost predicate StarAt(c: char, re: string, text: string, j: nat) {
    j <= |text| && SegmentOk(Many(c), text[..j]) && Here(re, text[j..])
  }

  lemma HereStar(re: string, text: string)
    requires |re| > 1 && re[1] == '*'
    ensures Here(re, text) <==> exists j: nat :: StarAt(re[0], re[2..], text, j)
  {
    var (x, p) := (Many(re[0]), Items(re[2..]));
    if Here(re, text) {
      var k: nat :| AcceptsPrefix(Items(re), text, k);
      var j := AfterHere(x, p, text, k);
      assert StarAt(re[0], re[2..], text, j);
    }
    if j: nat :| StarAt(re[0], re[2..], text, j) {
      var k: nat :| AcceptsPrefix(p, text[j..], k);
      HereAfter(x, p, text, j, k);
      assert AcceptsPrefix(Items(re), text, j + k);
    }
  }

  // The matcher.

  method MatchHere(re: string, text: string) returns (r: bool)
    ensures r == Here(re, text)
    decreases |re|, 1
  {
    hide Here;
    HereEmpty(text);
    if re == [] { return true; }
    if |re| > 1 && re[1] == '*' {
      HereStar(re, text);
      r := MatchStar(re[0], re[2..], text);
      return;
    }
    if re == "$" { return text == []; }
    HereOne(re, text);
    if text != [] && (re[0] == '.' || re[0] == text[0]) {
      r := MatchHere(re[1..], text[1..]);
      return;
    }
    r := false;
  }

  method MatchStar(c: char, re: string, text: string) returns (r: bool)
    ensures r <==> exists j: nat :: StarAt(c, re, text, j)
    decreases |re|, 2
  {
    hide Here;
    var i := 0;
    while true
      invariant 0 <= i <= |text| && SegmentOk(Many(c), text[..i])
      invariant forall j :: 0 <= j < i ==> !StarAt(c, re, text, j)
      decreases |text| - i
    {
      var b := MatchHere(re, text[i..]);
      if b {
        assert StarAt(c, re, text, i);
        return true;
      }
      if i == |text| || !(text[i] == c || c == '.') {
        StarStops(c, re, text, i);
        return false;
      }
      i := i + 1;
    }
    r := false;
  }

  lemma StarStops(c: char, re: string, text: string, i: nat)
    requires i <= |text| && !Here(re, text[i..]) && (i == |text| || !Same(c, text[i]))
    requires forall j :: 0 <= j < i ==> !StarAt(c, re, text, j)
    ensures forall j: nat :: !StarAt(c, re, text, j)
  {
    forall j: nat ensures !StarAt(c, re, text, j) {
      if i < j <= |text| { assert text[..j][i] == text[i]; }
    }
  }

  method Match(re: string, text: string) returns (r: bool)
    ensures r == Matches(re, text)
  {
    hide Here;
    if re != [] && re[0] == '^' {
      r := MatchHere(re[1..], text);
      return;
    }
    var i := 0;
    while true
      invariant 0 <= i <= |text| && forall k :: 0 <= k < i ==> !Here(re, text[k..])
      decreases |text| - i
    {
      var b := MatchHere(re, text[i..]);
      if b { return true; }
      if i == |text| { return false; }
      i := i + 1;
    }
    r := false;
  }
}
