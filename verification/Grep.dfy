/** user/grep.c: the matcher against the language of the pattern, and the line loop against its input. */
module Grep {
  // ---------- patterns and their language ----------

  datatype Item = One(c: char) | Star(c: char)

  /** dollar: the pattern ends in an unstarred $ that stands for the end of the text. */
  datatype Pattern = Pattern(items: seq<Item>, dollar: bool)

  function Parse(re: string): Pattern {
    if re == "" then Pattern([], false)
    else if |re| >= 2 && re[1] == '*' then var p := Parse(re[2..]); p.(items := [Star(re[0])] + p.items)
    else if re == "$" then Pattern([], true)
    else var p := Parse(re[1..]); p.(items := [One(re[0])] + p.items)
  }

  predicate Fits(c: char, ch: char) { c == '.' || c == ch }

  predicate AllFit(c: char, s: string) { forall i :: 0 <= i < |s| ==> Fits(c, s[i]) }

  predicate ItemOk(it: Item, s: string) {
    match it
    case One(c) => |s| == 1 && Fits(c, s[0])
    case Star(c) => AllFit(c, s)
  }

  function Flatten(parts: seq<string>): string {
    if parts == [] then "" else parts[0] + Flatten(parts[1..])
  }

  /** s is a concatenation of one string for each item. */
  ghost predicate Splits(items: seq<Item>, s: string, parts: seq<string>) {
    |parts| == |items| && Flatten(parts) == s && forall i :: 0 <= i < |items| ==> ItemOk(items[i], parts[i])
  }

  ghost predicate InLang(items: seq<Item>, s: string) {
    exists parts :: Splits(items, s, parts)
  }

  lemma SplitsCons(it: Item, items: seq<Item>, s: string, j: nat, parts: seq<string>)
    requires j <= |s| && ItemOk(it, s[..j]) && Splits(items, s[j..], parts)
    ensures Splits([it] + items, s, [s[..j]] + parts)
  {
    var all := [s[..j]] + parts;
    assert all[1..] == parts && s[..j] + s[j..] == s;
  }

  lemma InLangCons(it: Item, items: seq<Item>, s: string)
    ensures InLang([it] + items, s) <==> exists j :: 0 <= j <= |s| && ItemOk(it, s[..j]) && InLang(items, s[j..])
  {
    if InLang([it] + items, s) {
      var parts :| Splits([it] + items, s, parts);
      var j := |parts[0]|;
      assert s[..j] == parts[0] && s[j..] == Flatten(parts[1..]);
      assert ([it] + items)[1..] == items;
      forall i | 0 <= i < |items|
        ensures ItemOk(items[i], parts[1..][i])
      {
        assert ([it] + items)[i + 1] == items[i];
      }
      assert Splits(items, s[j..], parts[1..]);
    }
    if exists j :: 0 <= j <= |s| && ItemOk(it, s[..j]) && InLang(items, s[j..]) {
      var j :| 0 <= j <= |s| && ItemOk(it, s[..j]) && InLang(items, s[j..]);
      var parts :| Splits(items, s[j..], parts);
      SplitsCons(it, items, s, j, parts);
    }
  }

  // ---------- matching at the start of the text ----------

  ghost predicate AcceptsTo(p: Pattern, text: string, k: nat) {
    k <= |text| && InLang(p.items, text[..k]) && (p.dollar ==> k == |text|)
  }

  /** Some prefix of the text is in the language, the whole text if the pattern ends in $. */
  ghost predicate Accepts(p: Pattern, text: string) {
    exists k: nat :: AcceptsTo(p, text, k)
  }

  ghost predicate ConsAccepts(it: Item, p: Pattern, text: string) {
    exists j :: 0 <= j <= |text| && ItemOk(it, text[..j]) && Accepts(p, text[j..])
  }

  lemma AcceptsConsIf(it: Item, p: Pattern, text: string)
    requires ConsAccepts(it, p, text)
    ensures Accepts(p.(items := [it] + p.items), text)
  {
    var j :| 0 <= j <= |text| && ItemOk(it, text[..j]) && Accepts(p, text[j..]);
    var k: nat :| AcceptsTo(p, text[j..], k);
    var s := text[..j + k];
    assert s[..j] == text[..j] && s[j..] == text[j..][..k];
    InLangCons(it, p.items, s);
    assert AcceptsTo(p.(items := [it] + p.items), text, j + k);
  }

  lemma AcceptsConsOnlyIf(it: Item, p: Pattern, text: string)
    requires Accepts(p.(items := [it] + p.items), text)
    ensures ConsAccepts(it, p, text)
  {
    var k: nat :| AcceptsTo(p.(items := [it] + p.items), text, k);
    InLangCons(it, p.items, text[..k]);
    var j :| 0 <= j <= k && ItemOk(it, text[..k][..j]) && InLang(p.items, text[..k][j..]);
    assert text[..k][..j] == text[..j] && text[..k][j..] == text[j..][..k - j];
    assert AcceptsTo(p, text[j..], k - j);
  }

  /** After the first item the rest of the pattern accepts the rest of the text. */
  lemma AcceptsCons(it: Item, p: Pattern, text: string)
    ensures Accepts(p.(items := [it] + p.items), text) <==> ConsAccepts(it, p, text)
  {
    if Accepts(p.(items := [it] + p.items), text) {
      AcceptsConsOnlyIf(it, p, text);
    } else if ConsAccepts(it, p, text) {
      AcceptsConsIf(it, p, text);
    }
  }

  lemma AcceptsNothing(dollar: bool, text: string)
    ensures Accepts(Pattern([], dollar), text) <==> !dollar || text == ""
  {
    var p := Pattern([], dollar);
    assert Splits([], "", []);
    assert text[..0] == "";
    if !dollar || text == "" {
      assert AcceptsTo(p, text, 0);
    }
    if Accepts(p, text) {
      var k: nat :| AcceptsTo(p, text, k);
      var parts :| Splits([], text[..k], parts);
      assert k == 0;
    }
  }

  lemma AcceptsOne(c: char, p: Pattern, text: string)
    ensures Accepts(p.(items := [One(c)] + p.items), text) <==> text != "" && Fits(c, text[0]) && Accepts(p, text[1..])
  {
    AcceptsCons(One(c), p, text);
    if text != "" && Fits(c, text[0]) && Accepts(p, text[1..]) {
      assert ItemOk(One(c), text[..1]);
    }
  }

  /** A starred item consumes some run of fitting characters. */
  ghost predicate StarAccepts(c: char, p: Pattern, text: string, from: nat) {
    exists j :: from <= j <= |text| && AllFit(c, text[from..j]) && Accepts(p, text[j..])
  }

  lemma AcceptsStar(c: char, p: Pattern, text: string)
    ensures Accepts(p.(items := [Star(c)] + p.items), text) <==> StarAccepts(c, p, text, 0)
  {
    AcceptsCons(Star(c), p, text);
    assert forall j :: 0 <= j <= |text| ==> text[0..j] == text[..j];
  }

  /** One round of matchstar. */
  lemma StarStep(c: char, p: Pattern, text: string, from: nat)
    requires from <= |text|
    ensures StarAccepts(c, p, text, from)
            <==> Accepts(p, text[from..]) || (from < |text| && Fits(c, text[from]) && StarAccepts(c, p, text, from + 1))
  {
    if StarAccepts(c, p, text, from) && !Accepts(p, text[from..]) {
      var j :| from <= j <= |text| && AllFit(c, text[from..j]) && Accepts(p, text[j..]);
      assert text[from..j][0] == text[from];
      assert text[from..j][1..] == text[from + 1..j];
    }
    if Accepts(p, text[from..]) {
      assert AllFit(c, text[from..from]);
    }
    if from < |text| && Fits(c, text[from]) && StarAccepts(c, p, text, from + 1) {
      var j :| from + 1 <= j <= |text| && AllFit(c, text[from + 1..j]) && Accepts(p, text[j..]);
      assert text[from..j] == [text[from]] + text[from + 1..j];
    }
  }

  method MatchHere(re: string, text: string) returns (r: bool)
    ensures r <==> Accepts(Parse(re), text)
    decreases |re|, 1
  {
    if re == "" {
      AcceptsNothing(false, text);
      return true;
    }
    if |re| >= 2 && re[1] == '*' {
      AcceptsStar(re[0], Parse(re[2..]), text);
      r := MatchStar(re[0], re[2..], text);
      return;
    }
    if re[0] == '$' && |re| == 1 {
      AcceptsNothing(true, text);
      return text == "";
    }
    AcceptsOne(re[0], Parse(re[1..]), text);
    if text != "" && (re[0] == '.' || re[0] == text[0]) {
      r := MatchHere(re[1..], text[1..]);
      return;
    }
    return false;
  }

  method MatchStar(c: char, re: string, text: string) returns (r: bool)
    ensures r <==> StarAccepts(c, Parse(re), text, 0)
    decreases |re|, 2
  {
    var i, more := 0, true;
    while more
      invariant 0 <= i <= |text|
      invariant more ==> (StarAccepts(c, Parse(re), text, 0) <==> StarAccepts(c, Parse(re), text, i))
      invariant !more ==> !StarAccepts(c, Parse(re), text, 0)
      decreases more, |text| - i
    {
      StarStep(c, Parse(re), text, i);
      var here := MatchHere(re, text[i..]);
      if here {
        return true;
      }
      more := i < |text| && (text[i] == c || c == '.');
      if i < |text| {
        i := i + 1;
      }
    }
    return false;
  }

  // ---------- matching anywhere ----------

  predicate Caret(re: string) { re != "" && re[0] == '^' }

  function Body(re: string): string { if Caret(re) then re[1..] else re }

  /** Some substring of the text is in the language, at the start for ^ and at the end for $. */
  ghost predicate Found(re: string, text: string) {
    exists i, k :: 0 <= i <= k <= |text| && InLang(Parse(Body(re)).items, text[i..k])
      && (Caret(re) ==> i == 0) && (Parse(Body(re)).dollar ==> k == |text|)
  }

  lemma FoundFrom(re: string, text: string)
    ensures Found(re, text) <==>
            exists i :: 0 <= i <= |text| && (Caret(re) ==> i == 0) && Accepts(Parse(Body(re)), text[i..])
  {
    var p := Parse(Body(re));
    if Found(re, text) {
      var i, k :| 0 <= i <= k <= |text| && InLang(p.items, text[i..k]) && (Caret(re) ==> i == 0)
          && (p.dollar ==> k == |text|);
      assert text[i..][..k - i] == text[i..k];
      assert AcceptsTo(p, text[i..], k - i);
    }
    if exists i :: 0 <= i <= |text| && (Caret(re) ==> i == 0) && Accepts(p, text[i..]) {
      var i :| 0 <= i <= |text| && (Caret(re) ==> i == 0) && Accepts(p, text[i..]);
      var k: nat :| AcceptsTo(p, text[i..], k);
      assert text[i..][..k] == text[i..i + k];
    }
  }

  method Match(re: string, text: string) returns (r: bool)
    ensures r <==> Found(re, text)
  {
    FoundFrom(re, text);
    if Caret(re) {
      assert text[0..] == text;
      r := MatchHere(re[1..], text);
      return;
    }
    var i, more := 0, true;
    while more
      invariant 0 <= i <= |text| + 1 && (more ==> i <= |text|) && (!more ==> i == |text| + 1)
      invariant forall k :: 0 <= k < i ==> !Accepts(Parse(re), text[k..])
      decreases |text| + 1 - i
    {
      var here := MatchHere(re, text[i..]);
      if here {
        return true;
      }
      more := i < |text|;
      i := i + 1;
    }
    return false;
  }

  // ---------- the line loop ----------

  const SIZE: nat := 1024

  const NUL: char := '\0'

  /** Where strchr(s, '\n') comes to rest: at a newline, at a NUL, or past the end. */
  const RESTS: set<char> := {'\n', NUL}

  /** The first index of a character of cs, or the length. */
  ghost function IndexOf(s: string, cs: set<char>): (i: nat)
    ensures First(s, cs, i)
  {
    FirstExists(s, cs);
    var i: nat :| First(s, cs, i);
    i
  }

  ghost predicate First(s: string, cs: set<char>, i: nat) {
    i <= |s| && (i < |s| ==> s[i] in cs) && forall k :: 0 <= k < i ==> s[k] !in cs
  }

  lemma FirstExists(s: string, cs: set<char>)
    ensures exists i: nat :: First(s, cs, i)
  {
    var i := 0;
    while i < |s| && s[i] !in cs
      invariant i <= |s| && forall k :: 0 <= k < i ==> s[k] !in cs
    {
      i := i + 1;
    }
    assert First(s, cs, i);
  }

  /** The lines of the input that match, each with its newline. */
  ghost function MatchingLines(re: string, input: string): string
    decreases |input|
  {
    var i := IndexOf(input, {'\n'});
    if i == |input| then "" else Shown(re, input[..i]) + MatchingLines(re, input[i + 1..])
  }

  ghost function Shown(re: string, line: string): string {
    if Found(re, line) then line + "\n" else ""
  }

  /** What the program writes: it stops for good at the first line that does not fit its buffer or that
      has a NUL in it. */
  ghost function Output(re: string, input: string): string
    decreases |input|
  {
    var i := IndexOf(input, RESTS);
    if i == |input| || input[i] == NUL || i >= SIZE - 1 then ""
    else Shown(re, input[..i]) + Output(re, input[i + 1..])
  }

  /** Every complete line has at most 1023 bytes, with its newline, and no NUL. */
  ghost predicate ShortLines(input: string)
    decreases |input|
  {
    var i := IndexOf(input, {'\n'});
    i == |input| || (i + 1 <= SIZE - 1 && NUL !in input[..i] && ShortLines(input[i + 1..]))
  }

  /** strchr finds a line's newline exactly if no NUL comes before it. */
  lemma NewlineFound(input: string)
    ensures var i, j := IndexOf(input, {'\n'}), IndexOf(input, RESTS);
            if NUL in input[..i] then j < i && input[j] == NUL else i < |input| ==> j == i
  {
    var i, j := IndexOf(input, {'\n'}), IndexOf(input, RESTS);
    if NUL in input[..i] {
      var k :| 0 <= k < i && input[..i][k] == NUL;
      assert input[k] == NUL;
    }
  }

  /** What is left of the input at the line that stops the program. */
  ghost function Unread(input: string): string
    decreases |input|
  {
    var i := IndexOf(input, {'\n'});
    if i == |input| || i >= SIZE - 1 || NUL in input[..i] then input else Unread(input[i + 1..])
  }

  /** The program writes the matching lines up to the line that stops it. */
  lemma {:induction false} OutputUpTo(re: string, input: string)
    ensures MatchingLines(re, input) == Output(re, input) + MatchingLines(re, Unread(input))
    decreases |input|
  {
    var i := IndexOf(input, {'\n'});
    NewlineFound(input);
    if !(i == |input| || i >= SIZE - 1 || NUL in input[..i]) {
      OutputUpTo(re, input[i + 1..]);
      Assoc(Shown(re, input[..i]), Output(re, input[i + 1..]), MatchingLines(re, Unread(input)));
    } else {
      StopsAt(re, input);
    }
  }

  lemma StopsAt(re: string, input: string)
    requires var i := IndexOf(input, {'\n'}); i == |input| || i >= SIZE - 1 || NUL in input[..i]
    ensures Output(re, input) == ""
  {
    var i, j := IndexOf(input, {'\n'}), IndexOf(input, RESTS);
    NewlineFound(input);
    assert i == |input| && j < |input| ==> input[j] == NUL;
  }

  /** Without a complete line, nothing is left out. */
  lemma {:induction false} UnreadLine(input: string)
    ensures ShortLines(input) <==> IndexOf(Unread(input), {'\n'}) == |Unread(input)|
    decreases |input|
  {
    var i := IndexOf(input, {'\n'});
    if !(i == |input| || i >= SIZE - 1 || NUL in input[..i]) {
      UnreadLine(input[i + 1..]);
    }
  }

  lemma EmptyPatternMatches(line: string)
    ensures Found("", line)
  {
    assert Splits([], line[0..0], []);
    assert InLang(Parse(Body("")).items, line[0..0]);
  }

  lemma ShortLinesOutput(re: string, input: string)
    requires ShortLines(input)
    ensures Output(re, input) == MatchingLines(re, input)
  {
    OutputUpTo(re, input);
    UnreadLine(input);
    assert MatchingLines(re, Unread(input)) == "";
  }

  /** The program writes exactly the matching lines, whatever the pattern, if and only if every complete line
      of the input is short and free of NULs. */
  lemma OutputExactly(input: string)
    ensures ShortLines(input) <==> forall re :: Output(re, input) == MatchingLines(re, input)
  {
    if ShortLines(input) {
      forall re
        ensures Output(re, input) == MatchingLines(re, input)
      {
        ShortLinesOutput(re, input);
      }
    } else {
      LongLineLost(input);
    }
  }

  /** The empty pattern, which every line matches, shows the loss. */
  lemma LongLineLost(input: string)
    requires !ShortLines(input)
    ensures |Output("", input)| < |MatchingLines("", input)|
  {
    var t := Unread(input);
    OutputUpTo("", input);
    UnreadLine(input);
    EmptyPatternMatches(t[..IndexOf(t, {'\n'})]);
  }

  lemma IndexOfPrefix(s: string, t: string, cs: set<char>)
    requires |s| <= |t| && t[..|s|] == s
    ensures IndexOf(s, cs) < |s| ==> IndexOf(t, cs) == IndexOf(s, cs)
    ensures IndexOf(s, cs) == |s| ==> IndexOf(t, cs) >= |s|
  {
    assert forall k :: 0 <= k < |s| ==> t[k] == s[k];
    var i := IndexOf(s, cs);
    if i < |s| {
      assert t[i] in cs;
    }
  }

  /** From index p on buf holds text, and a NUL after it. */
  ghost predicate Buffered(buf: array<char>, p: nat, text: string)
    reads buf
  {
    && p <= |text| < buf.Length && buf[|text|] == NUL
    && forall k :: p <= k < |text| ==> buf[k] == text[k]
  }

  /** strchr in the buffer: the first c, unless a NUL comes before it. */
  method StrChr(buf: array<char>, p: nat, c: char, ghost text: string) returns (q: nat)
    requires Buffered(buf, p, text) && c != NUL
    ensures q == p + IndexOf(text[p..], {c, NUL})
  {
    q := p;
    while buf[q] != NUL
      invariant p <= q <= |text| && forall k :: p <= k < q ==> text[k] !in {c, NUL}
      decreases |text| - q
    {
      if buf[q] == c {
        break;
      }
      q := q + 1;
    }
    FirstFrom(text, p, q, {c, NUL});
  }

  lemma FirstFrom(text: string, p: nat, q: nat, cs: set<char>)
    requires p <= q <= |text| && (forall k :: p <= k < q ==> text[k] !in cs) && (q < |text| ==> text[q] in cs)
    ensures q == p + IndexOf(text[p..], cs)
  {
    var i := IndexOf(text[p..], cs);
    assert forall k :: p <= k < p + i ==> text[p..][k - p] == text[k];
    if i < |text[p..]| {
      assert text[p..][i] == text[p + i];
    }
  }

  /** memmove(buf, buf + p, n). */
  method MoveDown(buf: array<char>, p: nat, n: nat)
    requires p + n <= buf.Length
    modifies buf
    ensures buf[..n] == old(buf[p..p + n])
  {
    var k := 0;
    while k < n
      invariant 0 <= k <= n
      invariant forall j :: 0 <= j < k ==> buf[j] == old(buf[p + j])
      invariant forall j :: k <= j < buf.Length ==> buf[j] == old(buf[j])
    {
      buf[k] := buf[p + k];
      k := k + 1;
    }
  }

  /** The one thing that `Progress` says.  Quantifying over it keeps the equation folded, so that proofs
      about `Progress` see it only where they name it. */
  datatype Part = Written

  /** On input s the program writes out, and then what it writes on input t. */
  ghost predicate Progress(re: string, s: string, out: string, t: string) {
    forall u :: ProgressBy(u, re, s, out, t)
  }

  ghost predicate ProgressBy(u: Part, re: string, s: string, out: string, t: string) {
    match u
    case Written => Output(re, s) == out + Output(re, t)
  }

  lemma ProgressNone(re: string, s: string)
    ensures Progress(re, s, "", s)
  {
    assert "" + Output(re, s) == Output(re, s);
  }

  lemma ProgressMore(re: string, s: string, a: string, t: string, b: string, r: string)
    requires Progress(re, s, a, t) && Progress(re, t, b, r)
    ensures Progress(re, s, a + b, r)
  {
    assert ProgressBy(Written, re, s, a, t) && ProgressBy(Written, re, t, b, r);
    Assoc(a, b, Output(re, r));
  }

  lemma ProgressEnd(re: string, s: string, out: string, t: string)
    requires Progress(re, s, out, t) && Output(re, t) == ""
    ensures Output(re, s) == out
  {
    assert ProgressBy(Written, re, s, out, t);
  }

  lemma Assoc(a: string, b: string, c: string)
    ensures a + (b + c) == a + b + c
  {
  }

  /** The first line of rest, when its newline is within the text read so far. */
  lemma LineStep(re: string, rest: string, text: string)
    requires |text| <= |rest| && rest[..|text|] == text && |text| < SIZE
    requires var i := IndexOf(text, RESTS); i < |text| && text[i] != NUL
    ensures var i := IndexOf(text, RESTS); Progress(re, rest, Shown(re, text[..i]), rest[i + 1..])
  {
    IndexOfPrefix(text, rest, RESTS);
    var i := IndexOf(text, RESTS);
    assert rest[..i] == text[..i];
    FirstLine(re, rest, i);
  }

  lemma FirstLine(re: string, rest: string, i: nat)
    requires i == IndexOf(rest, RESTS) < |rest| && rest[i] != NUL && i < SIZE - 1
    ensures Progress(re, rest, Shown(re, rest[..i]), rest[i + 1..])
  {
  }

  /** One complete line, up to the newline at q. */
  method ScanLine(re: string, buf: array<char>, p: nat, q: nat, ghost line: string) returns (shown: string)
    requires p <= q < buf.Length && buf[p..q] == line
    modifies buf
    ensures forall k :: q < k < buf.Length ==> buf[k] == old(buf[k])
    ensures shown == Shown(re, line)
  {
    buf[q] := NUL;
    shown := "";
    assert buf[p..q] == line;
    var found := Match(re, buf[p..q]);
    if found {
      buf[q] := '\n';
      shown := buf[p..q + 1];
      assert shown == line + "\n";
    }
  }

  /** strchr finds no newline in t. */
  ghost predicate Stuck(t: string) {
    var i := IndexOf(t, RESTS);
    i == |t| || t[i] == NUL
  }

  /** Handles every complete line of the text in the buffer, which is how `rest` begins. */
  method ScanLines(re: string, buf: array<char>, ghost text: string, ghost rest: string) returns (out: string, p: nat)
    requires Buffered(buf, 0, text) && |text| < SIZE && |text| <= |rest| && rest[..|text|] == text
    modifies buf
    ensures Buffered(buf, p, text) && Stuck(text[p..])
    ensures Progress(re, rest, out, rest[p..])
  {
    ProgressNone(re, rest);
    assert rest[0..] == rest;
    out, p := "", 0;
    var q := StrChr(buf, 0, '\n', text);
    while buf[q] != NUL
      invariant p <= q <= |text| && Buffered(buf, p, text) && q == p + IndexOf(text[p..], RESTS)
      invariant Progress(re, rest, out, rest[p..])
      decreases |text| - p
    {
      var shown := NextLine(re, buf, p, q, text, rest);
      ProgressMore(re, rest, out, rest[p..], shown, rest[q + 1..]);
      out, p := out + shown, q + 1;
      q := StrChr(buf, p, '\n', text);
    }
  }

  /** One round of that loop. */
  method NextLine(re: string, buf: array<char>, p: nat, q: nat, ghost text: string, ghost rest: string)
      returns (shown: string)
    requires Buffered(buf, p, text) && |text| < SIZE && |text| <= |rest| && rest[..|text|] == text
    requires p <= q < |text| && q == p + IndexOf(text[p..], RESTS) && text[q] != NUL
    modifies buf
    ensures Buffered(buf, q + 1, text) && Progress(re, rest[p..], shown, rest[q + 1..])
  {
    NextRest(re, text, rest, p, q);
    assert buf[p..q] == text[p..][..q - p];
    shown := ScanLine(re, buf, p, q, text[p..][..q - p]);
  }

  lemma NextRest(re: string, text: string, rest: string, p: nat, q: nat)
    requires |text| < SIZE && |text| <= |rest| && rest[..|text|] == text
    requires p <= q < |text| && q == p + IndexOf(text[p..], RESTS) && text[q] != NUL
    ensures Progress(re, rest[p..], Shown(re, text[p..][..q - p]), rest[q + 1..])
  {
    var r, t := rest[p..], text[p..];
    assert r[..|t|] == t;
    LineStep(re, r, t);
    assert r[q - p + 1..] == rest[q + 1..];
  }

  /** grep on a file that holds `input`, whose reads deliver the amounts asked of them by `sizes` where
      these fit, and otherwise as much as fits or is left. */
  method Run(re: string, input: string, sizes: seq<nat>) returns (out: string)
    ensures out == Output(re, input)
  {
    var buf := new char[SIZE];
    var m: nat, pos: nat, turn: nat := 0, 0, 0;
    out := "";
    ghost var held, rest := "", input;
    ProgressNone(re, input);
    while pos < |input| && SIZE - m - 1 > 0
      invariant m <= SIZE - 1 && pos <= |input| && |held| == m && buf[..m] == held
      invariant Stuck(held) && rest == held + input[pos..] && Progress(re, input, out, rest)
      decreases |input| - pos
    {
      var most := if |input| - pos < SIZE - m - 1 then |input| - pos else SIZE - m - 1;
      var n := if turn < |sizes| && 0 < sizes[turn] < most then sizes[turn] else most;
      var shown;
      ghost var before := rest;
      shown, m, held, rest := Round(re, buf, m, input, pos, n, held, rest);
      ProgressMore(re, input, out, before, shown, rest);
      out, pos, turn := out + shown, pos + n, turn + 1;
    }
    Stops(re, held, input[pos..]);
    ProgressEnd(re, input, out, rest);
  }

  lemma Arrive(input: string, pos: nat, n: nat, held: string, rest: string)
    requires pos + n <= |input| && rest == held + input[pos..]
    ensures |held| + n <= |rest| && rest[..|held| + n] == held + input[pos..pos + n]
  {
  }

  lemma Depart(input: string, pos: nat, n: nat, held: string, rest: string, p: nat)
    requires pos + n <= |input| && rest == held + input[pos..] && p <= |held| + n
    ensures rest[p..] == (held + input[pos..pos + n])[p..] + input[pos + n..]
  {
    assert rest == held + input[pos..pos + n] + input[pos + n..];
  }

  /** One round of the outer loop: n bytes arrive behind the partial line `held`. */
  method Round(re: string, buf: array<char>, m: nat, input: string, pos: nat, n: nat, ghost held: string,
      ghost rest: string)
    returns (shown: string, kept: nat, ghost held1: string, ghost rest1: string)
    requires buf.Length == SIZE && m + n < SIZE && pos + n <= |input| && buf[..m] == held
    requires rest == held + input[pos..]
    modifies buf
    ensures kept <= m + n && |held1| == kept && buf[..kept] == held1 && Stuck(held1)
    ensures rest1 == held1 + input[pos + n..] && Progress(re, rest, shown, rest1)
  {
    ghost var text := held + input[pos..pos + n];
    Arrive(input, pos, n, held, rest);
    Read(buf, m, input[pos..pos + n], text);
    var p;
    shown, p := ScanLines(re, buf, text, rest);
    held1, rest1 := text[p..], rest[p..];
    Depart(input, pos, n, held, rest, p);
    assert buf[p..|text|] == held1;
    kept := m + n - p;
    MoveDown(buf, p, kept);
  }

  method Read(buf: array<char>, m: nat, data: string, ghost text: string)
    requires m + |data| < buf.Length && text == buf[..m] + data
    modifies buf
    ensures Buffered(buf, 0, text)
  {
    var k := 0;
    while k < |data|
      invariant 0 <= k <= |data|
      invariant forall j :: 0 <= j < m + k ==> buf[j] == text[j]
    {
      buf[m + k] := data[k];
      k := k + 1;
    }
    buf[m + |data|] := NUL;
  }

  /** At the end of the input, or with a full buffer and no newline to be found in it, nothing more is written. */
  lemma Stops(re: string, held: string, more: string)
    requires Stuck(held) && (more == "" || |held| >= SIZE - 1)
    ensures Output(re, held + more) == ""
  {
    assert (held + more)[..|held|] == held;
    IndexOfPrefix(held, held + more, RESTS);
  }
}
