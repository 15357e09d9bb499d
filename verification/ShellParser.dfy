/** user/sh.c on its buffer: gettoken and peek move a cursor through the characters, the parse functions
    build commands whose words are ranges of the buffer, and nulterminate writes into it. */
module ShellParser {
  import opened Shell

  /** From q up to, not including, eq. */
  datatype Span = Span(q: nat, eq: nat)

  type Tok = Token<Span>

  // ---------- lexing ----------

  function Skip(s: string, i: nat): (j: nat)
    requires i <= |s|
    ensures i <= j <= |s| && (j < |s| ==> !White(s[j]))
    ensures forall k :: i <= k < j ==> White(s[k])
    decreases |s| - i
  {
    if i < |s| && White(s[i]) then Skip(s, i + 1) else i
  }

  function WordEnd(s: string, i: nat): (j: nat)
    requires i <= |s|
    ensures i <= j <= |s| && (j < |s| ==> White(s[j]) || Symbol(s[j]))
    ensures forall k :: i <= k < j ==> !White(s[k]) && !Symbol(s[k])
    decreases |s| - i
  {
    if i < |s| && !White(s[i]) && !Symbol(s[i]) then WordEnd(s, i + 1) else i
  }

  /** The token at a character that is not white, and where it ends. */
  function TokenAt(s: string, j: nat): (r: (Tok, nat))
    requires j < |s| && !White(s[j])
    ensures j < r.1 <= |s| && (r.0.Word? ==> r.0.word == Span(j, r.1) && !Symbol(s[j]))
  {
    if s[j] == '|' then (Bar, j + 1)
    else if s[j] == '(' then (Open, j + 1)
    else if s[j] == ')' then (Close, j + 1)
    else if s[j] == ';' then (Semi, j + 1)
    else if s[j] == '&' then (Amp, j + 1)
    else if s[j] == '<' then (Arrow(Input), j + 1)
    else if s[j] == '>' then
      if j + 1 < |s| && s[j + 1] == '>' then (Arrow(Append), j + 2) else (Arrow(Output), j + 1)
    else (Word(Span(j, WordEnd(s, j))), WordEnd(s, j))
  }

  /** The tokens from character i on. */
  function Lex(s: string, i: nat): seq<Tok>
    requires i <= |s|
    decreases |s| - i
  {
    var j := Skip(s, i);
    if j == |s| then [] else [TokenAt(s, j).0] + Lex(s, TokenAt(s, j).1)
  }

  lemma {:induction false} SkipTwice(s: string, i: nat)
    requires i <= |s|
    ensures Skip(s, Skip(s, i)) == Skip(s, i) && Lex(s, Skip(s, i)) == Lex(s, i)
    decreases |s| - i
  {
    if i < |s| && White(s[i]) {
      SkipTwice(s, i + 1);
    }
  }

  /** Words are the longest runs of plain characters. */
  ghost predicate Run(s: string, w: Span) {
    && w.q < w.eq <= |s| && (w.eq < |s| ==> !Plain(s[w.eq]))
    && forall k :: w.q <= k < w.eq ==> Plain(s[k])
  }

  ghost predicate NulFree(s: string) { forall k :: 0 <= k < |s| ==> s[k] != NUL }

  lemma {:induction false} LexRuns(s: string, i: nat, k: nat)
    requires i <= |s| && NulFree(s) && k < |Lex(s, i)| && Lex(s, i)[k].Word?
    ensures Run(s, Lex(s, i)[k].word)
    decreases |s| - i
  {
    var j := Skip(s, i);
    if k > 0 {
      LexRuns(s, TokenAt(s, j).1, k - 1);
    }
  }

  /** One word's end is not inside another word. */
  lemma RunsApart(s: string, v: Span, w: Span)
    requires Run(s, v) && Run(s, w)
    ensures !(w.q <= v.eq < w.eq)
  {
  }

  // ---------- printing ----------

  ghost predicate Legal(w: string) { w != "" && forall k :: 0 <= k < |w| ==> Plain(w[k]) }

  ghost predicate LegalCmd(c: Cmd<string>) {
    match c
    case Exec(args) => forall k :: 0 <= k < |args| ==> Legal(args[k])
    case Redir(d, file, _) => LegalCmd(d) && Legal(file)
    case Pipe(l, r) => LegalCmd(l) && LegalCmd(r)
    case List(l, r) => LegalCmd(l) && LegalCmd(r)
    case Back(d) => LegalCmd(d)
  }

  function Sign(m: Mode): string {
    match m
    case Input => "<"
    case Output => ">"
    case Append => ">>"
  }

  function PrintWords(args: seq<string>): string {
    if args == [] then "" else args[0] + " " + PrintWords(args[1..])
  }

  /** The parenthesised print of a command. */
  function Print(c: Cmd<string>): string {
    match c
    case Exec(args) => PrintWords(args)
    case Redir(d, file, mode) => "(" + Print(d) + ")" + (Sign(mode) + (file + " "))
    case Pipe(l, r) => "(" + Print(l) + ")" + ("|" + ("(" + Print(r) + ")"))
    case List(l, r) => "(" + Print(l) + ")" + (";" + ("(" + Print(r) + ")"))
    case Back(d) => "(" + Print(d) + ")" + "&"
  }

  function PlacedWords(args: seq<string>, i: nat): seq<Span> {
    if args == [] then [] else [Span(i, i + |args[0]|)] + PlacedWords(args[1..], i + |args[0]| + 1)
  }

  /** The command with its words as ranges of a buffer that has its print at i. */
  function Placed(c: Cmd<string>, i: nat): Cmd<Span> {
    match c
    case Exec(args) => Exec(PlacedWords(args, i))
    case Redir(d, file, mode) =>
      var at := i + |Print(d)| + 2 + |Sign(mode)|;
      Redir(Placed(d, i + 1), Span(at, at + |file|), mode)
    case Pipe(l, r) => Pipe(Placed(l, i + 1), Placed(r, i + |Print(l)| + 4))
    case List(l, r) => List(Placed(l, i + 1), Placed(r, i + |Print(l)| + 4))
    case Back(d) => Back(Placed(d, i + 1))
  }

  /** s has p at i. */
  ghost predicate At(s: string, i: nat, p: string)
    decreases |p|
  {
    if p == "" then i <= |s| else i < |s| && s[i] == p[0] && At(s, i + 1, p[1..])
  }

  lemma {:induction false} AtSplit(s: string, i: nat, p: string, q: string)
    requires At(s, i, p + q)
    ensures At(s, i, p) && At(s, i + |p|, q)
    decreases |p|
  {
    if p == "" {
      assert p + q == q;
      AtFits(s, i, q);
    } else {
      assert (p + q)[1..] == p[1..] + q;
      AtSplit(s, i + 1, p[1..], q);
    }
  }

  lemma {:induction false} AtFits(s: string, i: nat, p: string)
    requires At(s, i, p)
    ensures i + |p| <= |s| && s[i..i + |p|] == p
    decreases |p|
  {
    if p != "" {
      AtFits(s, i + 1, p[1..]);
      assert s[i..i + |p|] == [s[i]] + s[i + 1..i + |p|];
    }
  }

  datatype Part = Bounds | Tokens

  /** From i to j, the tokens ts. */
  ghost predicate Yields(s: string, i: nat, ts: seq<Tok>, j: nat) {
    forall u :: YieldsBy(u, s, i, ts, j)
  }

  ghost predicate YieldsBy(u: Part, s: string, i: nat, ts: seq<Tok>, j: nat) {
    match u
    case Bounds => i <= |s| && j <= |s|
    case Tokens => i <= |s| && j <= |s| && Lex(s, i) == ts + Lex(s, j)
  }

  lemma Then(s: string, i: nat, ts: seq<Tok>, j: nat, us: seq<Tok>, k: nat, all: seq<Tok>)
    requires Yields(s, i, ts, j) && Yields(s, j, us, k) && all == ts + us
    ensures Yields(s, i, all, k)
  {
    assert YieldsBy(Part.Tokens, s, i, ts, j) && YieldsBy(Part.Tokens, s, j, us, k);
    assert Lex(s, i) == ts + us + Lex(s, k);
  }

  lemma {:induction false} RunEnd(s: string, i: nat, e: nat)
    requires i <= e < |s| && (White(s[e]) || Symbol(s[e])) && forall k :: i <= k < e ==> Plain(s[k])
    ensures WordEnd(s, i) == e
    decreases e - i
  {
    if i < e {
      RunEnd(s, i + 1, e);
    }
  }

  lemma LexWord(s: string, i: nat, w: string)
    requires At(s, i, w + " ") && Legal(w)
    ensures Yields(s, i, [Word(Span(i, i + |w|))], i + |w| + 1)
  {
    AtFits(s, i, w + " ");
    var e := i + |w|;
    assert forall k :: i <= k <= e ==> s[k] == s[i..e + 1][k - i];
    assert s[e] == ' ';
    RunEnd(s, i, e);
    assert Skip(s, e) == Skip(s, e + 1);
    assert Lex(s, i) == [Word(Span(i, e))] + Lex(s, e + 1);
  }

  /** A one-character token. */
  lemma LexSign(s: string, i: nat, p: string, t: Tok)
    requires At(s, i, p)
    requires (p == "(" && t == Open) || (p == ")" && t == Close) || (p == "|" && t == Bar) || (p == ";" && t == Semi)
             || (p == "&" && t == Amp)
    ensures Yields(s, i, [t], i + 1)
  {
    assert s[i] == p[0];
    assert Lex(s, i) == [t] + Lex(s, i + 1);
  }

  lemma LexArrow(s: string, i: nat, mode: Mode, w: string)
    requires At(s, i, Sign(mode)) && At(s, i + |Sign(mode)|, w + " ") && Legal(w)
    ensures Yields(s, i, [Arrow(mode)], i + |Sign(mode)|)
  {
    var p := Sign(mode);
    assert |p| == 2 ==> At(s, i + 1, p[1..]) && s[i + 1] == '>';
    assert s[i + |p|] == w[0];
    assert Plain(s[i + |p|]);
    assert TokenAt(s, i) == (Arrow(mode), i + |p|);
    assert Lex(s, i) == [Arrow(mode)] + Lex(s, i + |p|);
  }

  lemma {:induction false} LexWords(s: string, i: nat, args: seq<string>)
    requires At(s, i, PrintWords(args)) && forall k :: 0 <= k < |args| ==> Legal(args[k])
    ensures Yields(s, i, Words(PlacedWords(args, i)), i + |PrintWords(args)|)
    decreases |args|
  {
    if args != [] {
      var w, more := args[0] + " ", args[1..];
      AtSplit(s, i, w, PrintWords(more));
      LexWord(s, i, args[0]);
      LexWords(s, i + |w|, more);
      assert PlacedWords(args, i)[1..] == PlacedWords(more, i + |w|);
      Then(s, i, [Word(Span(i, i + |args[0]|))], i + |w|, Words(PlacedWords(more, i + |w|)), i + |PrintWords(args)|,
          Words(PlacedWords(args, i)));
    }
  }

  lemma {:induction false} LexGroup(s: string, i: nat, c: Cmd<string>)
    requires LegalCmd(c) && At(s, i, "(" + Print(c) + ")")
    ensures Yields(s, i, [Open] + Shell.Tokens(Placed(c, i + 1)) + [Close], i + |Print(c)| + 2)
    decreases c, 2
  {
    var ts := Shell.Tokens(Placed(c, i + 1));
    AtSplit(s, i, "(" + Print(c), ")");
    AtSplit(s, i, "(", Print(c));
    LexSign(s, i, "(", Open);
    LexPrint(s, i + 1, c);
    LexSign(s, i + 1 + |Print(c)|, ")", Close);
    Then(s, i, [Open], i + 1, ts, i + 1 + |Print(c)|, [Open] + ts);
    Then(s, i, [Open] + ts, i + 1 + |Print(c)|, [Close], i + |Print(c)| + 2, [Open] + ts + [Close]);
  }

  /** Lexing the print of a command gives the tokens of its parenthesised form. */
  lemma {:induction false} LexPrint(s: string, i: nat, c: Cmd<string>)
    requires LegalCmd(c) && At(s, i, Print(c))
    ensures Yields(s, i, Shell.Tokens(Placed(c, i)), i + |Print(c)|)
    decreases c, 1
  {
    match c
    case Exec(args) => LexWords(s, i, args);
    case Redir(d, file, mode) => LexRedir(s, i, d, file, mode);
    case Pipe(l, r) => LexPair(s, i, c, l, "|", Bar, r);
    case List(l, r) => LexPair(s, i, c, l, ";", Semi, r);
    case Back(d) =>
      var j, ts := i + |Print(d)| + 2, [Open] + Shell.Tokens(Placed(d, i + 1)) + [Close];
      AtSplit(s, i, "(" + Print(d) + ")", "&");
      LexGroup(s, i, d);
      LexSign(s, j, "&", Amp);
      Then(s, i, ts, j, [Amp], j + 1, ts + [Amp]);
  }

  lemma {:induction false} LexRedir(s: string, i: nat, d: Cmd<string>, file: string, mode: Mode)
    requires LegalCmd(d) && Legal(file) && At(s, i, Print(Redir(d, file, mode)))
    ensures Yields(s, i, Shell.Tokens(Placed(Redir(d, file, mode), i)), i + |Print(Redir(d, file, mode))|)
    decreases d, 3
  {
    var j, ts := i + |Print(d)| + 2, [Open] + Shell.Tokens(Placed(d, i + 1)) + [Close];
    var at := j + |Sign(mode)|;
    AtSplit(s, i, "(" + Print(d) + ")", Sign(mode) + (file + " "));
    LexGroup(s, i, d);
    AtSplit(s, j, Sign(mode), file + " ");
    LexArrow(s, j, mode, file);
    LexWord(s, at, file);
    Then(s, j, [Arrow(mode)], at, [Word(Span(at, at + |file|))], at + |file| + 1,
        [Arrow(mode), Word(Span(at, at + |file|))]);
    Then(s, i, ts, j, [Arrow(mode), Word(Span(at, at + |file|))], at + |file| + 1,
        Shell.Tokens(Placed(Redir(d, file, mode), i)));
  }

  lemma {:induction false} LexPair(s: string, i: nat, c: Cmd<string>, l: Cmd<string>, p: string, t: Tok, r: Cmd<string>)
    requires LegalCmd(l) && LegalCmd(r)
    requires (c == Pipe(l, r) && p == "|" && t == Bar) || (c == List(l, r) && p == ";" && t == Semi)
    requires At(s, i, "(" + Print(l) + ")" + (p + ("(" + Print(r) + ")")))
    ensures Yields(s, i, [Open] + Shell.Tokens(Placed(l, i + 1)) + [Close] + [t]
            + ([Open] + Shell.Tokens(Placed(r, i + |Print(l)| + 4)) + [Close]),
                   i + |Print(l)| + |Print(r)| + 5)
    decreases c, 0
  {
    var j := i + |Print(l)| + 2;
    var k := j + |Print(r)| + 3;
    var ts, us := [Open] + Shell.Tokens(Placed(l, i + 1)) + [Close], [Open] + Shell.Tokens(Placed(r, j + 2)) + [Close];
    AtSplit(s, i, "(" + Print(l) + ")", p + ("(" + Print(r) + ")"));
    LexGroup(s, i, l);
    AtSplit(s, j, p, "(" + Print(r) + ")");
    LexSign(s, j, p, t);
    LexGroup(s, j + 1, r);
    Then(s, i, ts, j, [t], j + 1, ts + [t]);
    Then(s, i, ts + [t], j + 1, us, k, ts + [t] + us);
  }

  // ---------- words read back ----------

  function Each<V, W>(c: Cmd<V>, f: V -> W): Cmd<W> {
    match c
    case Exec(args) => Exec(seq(|args|, k requires 0 <= k < |args| => f(args[k])))
    case Redir(d, file, mode) => Redir(Each(d, f), f(file), mode)
    case Pipe(l, r) => Pipe(Each(l, f), Each(r, f))
    case List(l, r) => List(Each(l, f), Each(r, f))
    case Back(d) => Back(Each(d, f))
  }

  lemma {:induction false} EachSame<V(!new), W>(c: Cmd<V>, ws: set<V>, f: V -> W, g: V -> W)
    requires From(c, ws) && forall w :: w in ws ==> f(w) == g(w)
    ensures Each(c, f) == Each(c, g)
  {
    match c
    case Exec(args) =>
    case Redir(d, file, mode) => EachSame(d, ws, f, g);
    case Pipe(l, r) => EachSame(l, ws, f, g); EachSame(r, ws, f, g);
    case List(l, r) => EachSame(l, ws, f, g); EachSame(r, ws, f, g);
    case Back(d) => EachSame(d, ws, f, g);
  }

  function Cut(s: string, w: Span): string { if w.q <= w.eq <= |s| then s[w.q..w.eq] else "" }

  function Cutter(s: string): Span -> string { w => Cut(s, w) }

  /** The string that starts at q and ends at the first NUL. */
  function CString(s: string, q: nat): string
    decreases |s| - q
  {
    if q >= |s| || s[q] == NUL then "" else [s[q]] + CString(s, q + 1)
  }

  lemma {:induction false} PlacedText(s: string, i: nat, c: Cmd<string>)
    requires At(s, i, Print(c))
    ensures Each(Placed(c, i), Cutter(s)) == c
    decreases c, 1
  {
    match c
    case Exec(args) => PlacedWordsText(s, i, args);
    case Redir(d, file, mode) => RedirText(s, i, d, file, mode);
    case Pipe(l, r) => PairText(s, i, c, l, "|", r);
    case List(l, r) => PairText(s, i, c, l, ";", r);
    case Back(d) =>
      AtSplit(s, i, "(" + Print(d) + ")", "&");
      GroupText(s, i, d);
  }

  lemma {:induction false} RedirText(s: string, i: nat, d: Cmd<string>, file: string, mode: Mode)
    requires At(s, i, Print(Redir(d, file, mode)))
    ensures Each(Placed(Redir(d, file, mode), i), Cutter(s)) == Redir(d, file, mode)
    decreases d, 3
  {
    var at := i + |Print(d)| + 2 + |Sign(mode)|;
    AtSplit(s, i, "(" + Print(d) + ")", Sign(mode) + (file + " "));
    GroupText(s, i, d);
    AtSplit(s, at - |Sign(mode)|, Sign(mode), file + " ");
    AtSplit(s, at, file, " ");
    AtFits(s, at, file);
  }

  lemma {:induction false} PairText(s: string, i: nat, c: Cmd<string>, l: Cmd<string>, p: string, r: Cmd<string>)
    requires (c == Pipe(l, r) || c == List(l, r)) && |p| == 1
             && At(s, i, "(" + Print(l) + ")" + (p + ("(" + Print(r) + ")")))
    ensures Each(Placed(l, i + 1), Cutter(s)) == l && Each(Placed(r, i + |Print(l)| + 4), Cutter(s)) == r
    decreases c, 0
  {
    AtSplit(s, i, "(" + Print(l) + ")", p + ("(" + Print(r) + ")"));
    GroupText(s, i, l);
    AtSplit(s, i + |Print(l)| + 2, p, "(" + Print(r) + ")");
    GroupText(s, i + |Print(l)| + 3, r);
  }

  lemma {:induction false} GroupText(s: string, i: nat, c: Cmd<string>)
    requires At(s, i, "(" + Print(c) + ")")
    ensures Each(Placed(c, i + 1), Cutter(s)) == c
    decreases c, 2
  {
    AtSplit(s, i, "(" + Print(c), ")");
    AtSplit(s, i, "(", Print(c));
    PlacedText(s, i + 1, c);
  }

  lemma {:induction false} PlacedWordsText(s: string, i: nat, args: seq<string>)
    requires At(s, i, PrintWords(args))
    ensures var ws := PlacedWords(args, i); |ws| == |args| && forall k :: 0 <= k < |args| ==> Cut(s, ws[k]) == args[k]
    decreases |args|
  {
    if args != [] {
      var w, more := args[0] + " ", args[1..];
      AtSplit(s, i, w, PrintWords(more));
      AtSplit(s, i, args[0], " ");
      AtFits(s, i, args[0]);
      PlacedWordsText(s, i + |w|, more);
      var ws := PlacedWords(args, i);
      assert ws[0] == Span(i, i + |args[0]|) && ws[1..] == PlacedWords(more, i + |w|);
      assert forall k :: 1 <= k < |args| ==> ws[k] == ws[1..][k - 1] && args[k] == more[k - 1];
    }
  }

  lemma {:induction false} FitsPlaced(c: Cmd<string>, i: nat)
    ensures Fits(Placed(c, i)) <==> Fits(c)
    decreases c
  {
    match c
    case Exec(args) => PlacedCount(args, i);
    case Redir(d, file, mode) => FitsPlaced(d, i + 1);
    case Pipe(l, r) => FitsPlaced(l, i + 1); FitsPlaced(r, i + |Print(l)| + 4);
    case List(l, r) => FitsPlaced(l, i + 1); FitsPlaced(r, i + |Print(l)| + 4);
    case Back(d) => FitsPlaced(d, i + 1);
  }

  lemma {:induction false} PlacedCount(args: seq<string>, i: nat)
    ensures |PlacedWords(args, i)| == |args|
    decreases |args|
  {
    if args != [] {
      PlacedCount(args[1..], i + |args[0]| + 1);
    }
  }

  lemma {:induction false} AtAll(s: string, i: nat, p: string)
    requires i <= |s| && s[i..] == p
    ensures At(s, i, p)
    decreases |p|
  {
    if p != "" {
      assert s[i..][0] == s[i] && s[i..][1..] == s[i + 1..];
      AtAll(s, i + 1, p[1..]);
    }
  }

  /** Parsing the print of a command gives the command back, its words as ranges of the print, exactly when
      every EXEC has room for its arguments. */
  lemma ParsePrint(c: Cmd<string>)
    requires LegalCmd(c)
    ensures Whole(Lex(Print(c), 0)) == Ok(Placed(c, 0), []) <==> Fits(c)
    ensures Each(Placed(c, 0), Cutter(Print(c))) == c
  {
    var s := Print(c);
    AtAll(s, 0, s);
    LexPrint(s, 0, c);
    assert Lex(s, 0) == Shell.Tokens(Placed(c, 0)) by {
      assert YieldsBy(Part.Tokens, s, 0, Shell.Tokens(Placed(c, 0)), |s|);
      assert Lex(s, |s|) == [];
    }
    RoundTrip(Placed(c, 0));
    FitsPlaced(c, 0);
    PlacedText(s, 0, c);
  }

  // ---------- the code ----------

  datatype Outcome = Parsed(cmd: Cmd<Span>) | Panic(error: Error)

  /** What the grammar gives, when the cursor ends up at i. */
  function Result(s: string, o: Outcome, i: nat): Parse<Span>
    requires i <= |s|
  {
    match o
    case Parsed(c) => Ok(c, Lex(s, i))
    case Panic(e) => Fail(e)
  }

  /** The return values of gettoken. */
  function Named(tok: char, q: nat, eq: nat): Tok {
    match tok
    case '|' => Bar
    case '(' => Open
    case ')' => Close
    case ';' => Semi
    case '&' => Amp
    case '<' => Arrow(Input)
    case '>' => Arrow(Output)
    case '+' => Arrow(Append)
    case _ => Word(Span(q, eq))
  }

  method Gettoken(s: string, ps: nat) returns (tok: char, q: nat, eq: nat, next: nat)
    requires ps <= |s| && NulFree(s)
    ensures next <= |s| && (tok == NUL <==> Lex(s, ps) == [])
    ensures tok == NUL || tok == 'a' || tok == '+' || Symbol(tok)
    ensures tok == NUL ==> Lex(s, next) == []
    ensures tok != NUL ==> Lex(s, ps) == [Named(tok, q, eq)] + Lex(s, next)
  {
    q := SkipWhite(s, ps);
    tok, eq := ReadToken(s, q);
    next := SkipWhite(s, eq);
  }

  /** gettoken(ps, es, 0, 0). */
  method DropToken(s: string, ps: nat) returns (next: nat)
    requires ps <= |s| && NulFree(s) && Lex(s, ps) != []
    ensures next <= |s| && Lex(s, next) == Lex(s, ps)[1..]
  {
    var tok, q, eq;
    tok, q, eq, next := Gettoken(s, ps);
  }

  /** The switch of gettoken. */
  method ReadToken(s: string, q: nat) returns (tok: char, eq: nat)
    requires q <= |s| && NulFree(s) && (q < |s| ==> !White(s[q]))
    ensures q == |s| ==> tok == NUL && eq == q
    ensures q < |s| ==> (tok == 'a' || tok == '+' || Symbol(tok)) && TokenAt(s, q) == (Named(tok, q, eq), eq)
  {
    tok, eq := if q < |s| then s[q] else NUL, q;
    if tok == NUL {
    } else if Symbol(tok) && tok != '>' {
      eq := eq + 1;
    } else if tok == '>' {
      eq := eq + 1;
      if eq < |s| && s[eq] == '>' {
        tok := '+';
        eq := eq + 1;
      }
    } else {
      tok := 'a';
      eq := SkipWord(s, eq);
    }
  }

  /** The loops of gettoken and peek. */
  method SkipWhite(s: string, i: nat) returns (j: nat)
    requires i <= |s|
    ensures j == Skip(s, i) && Lex(s, j) == Lex(s, i)
  {
    j := i;
    while j < |s| && White(s[j])
      invariant i <= j <= |s| && Skip(s, j) == Skip(s, i)
    {
      j := j + 1;
    }
    SkipTwice(s, i);
  }

  method SkipWord(s: string, i: nat) returns (j: nat)
    requires i <= |s|
    ensures j == WordEnd(s, i)
  {
    j := i;
    while j < |s| && !White(s[j]) && !Symbol(s[j])
      invariant i <= j <= |s| && WordEnd(s, j) == WordEnd(s, i)
    {
      j := j + 1;
    }
  }

  function Lead(t: Tok): char {
    match t
    case Bar => '|'
    case Open => '('
    case Close => ')'
    case Semi => ';'
    case Amp => '&'
    case Arrow(mode) => if mode == Input then '<' else '>'
    case Word(_) => 'a'
  }

  /** The next token begins with one of toks. */
  predicate Peeks(t: seq<Tok>, toks: string) { t != [] && !t[0].Word? && Lead(t[0]) in toks }

  method Peek(s: string, ps: nat, toks: string) returns (found: bool, next: nat)
    requires ps <= |s| && NulFree(s) && forall k :: 0 <= k < |toks| ==> Symbol(toks[k])
    ensures next <= |s| && Lex(s, next) == Lex(s, ps) && (found <==> Peeks(Lex(s, ps), toks))
    ensures Lex(s, ps) == [] <==> next == |s|
  {
    next := SkipWhite(s, ps);
    found := next < |s| && s[next] in toks;
    assert next < |s| ==> !TokenAt(s, next).0.Word? ==> Lead(TokenAt(s, next).0) == s[next];
  }

  lemma PeeksArrow(t: seq<Tok>)
    ensures Peeks(t, "<>") <==> t != [] && t[0].Arrow?
  {
    assert t != [] && t[0].Arrow? ==> Lead(t[0]) == "<>"[0] || Lead(t[0]) == "<>"[1];
  }

  lemma PeeksStop(t: seq<Tok>)
    ensures Peeks(t, "|)&;") <==> t != [] && Stops(t[0])
  {
    var p := "|)&;";
    assert p[0] == '|' && p[1] == ')' && p[2] == '&' && p[3] == ';';
  }

  /** One round of parseredirs: a redirection and its file. */
  method ParseTarget(s: string, ps: nat) returns (ok: bool, mode: Mode, w: Span, next: nat)
    requires ps <= |s| && NulFree(s) && Lex(s, ps) != [] && Lex(s, ps)[0].Arrow?
    ensures next <= |s| && (ok <==> |Lex(s, ps)| > 1 && Lex(s, ps)[1].Word?)
    ensures ok ==> Lex(s, ps) == [Arrow(mode), Word(w)] + Lex(s, next)
  {
    ghost var t := Lex(s, ps);
    var tok, kind, q, eq;
    tok, q, eq, next := Gettoken(s, ps);
    assert t[1..] == Lex(s, next) && t[0] == Named(tok, q, eq);
    mode := if tok == '<' then Input else if tok == '>' then Output else Append;
    kind, q, eq, next := Gettoken(s, next);
    ok, w := kind == 'a', Span(q, eq);
  }

  method ParseRedirs(cmd: Cmd<Span>, s: string, ps: nat) returns (o: Outcome, next: nat)
    requires ps <= |s| && NulFree(s)
    ensures next <= |s| && Result(s, o, next) == Redirs(cmd, Lex(s, ps))
  {
    var c := cmd;
    var more;
    more, next := Peek(s, ps, "<>");
    PeeksArrow(Lex(s, ps));
    while more
      invariant next <= |s| && Redirs(c, Lex(s, next)) == Redirs(cmd, Lex(s, ps))
      invariant more <==> Lex(s, next) != [] && Lex(s, next)[0].Arrow?
      decreases |Lex(s, next)|
    {
      ghost var t := Lex(s, next);
      var ok, mode, w;
      ok, mode, w, next := ParseTarget(s, next);
      if !ok {
        return Panic(MissingFile), next;
      }
      assert t[2..] == Lex(s, next);
      c := Redir(c, w, mode);
      PeeksArrow(Lex(s, next));
      more, next := Peek(s, next, "<>");
    }
    o := Parsed(c);
  }

  /** One round of parseexec, after gettoken. */
  method ParseArg(c: Cmd<Span>, argc: nat, tok: char, w: Span, s: string, ps: nat, ghost t: seq<Tok>)
      returns (o: Outcome, next: nat)
    requires ps <= |s| && NulFree(s) && (tok == 'a' || tok == '+' || Symbol(tok))
    requires t == [Named(tok, w.q, w.eq)] + Lex(s, ps) && !Stops(t[0])
    ensures next <= |s| && (o.Panic? ==> Args(c, argc, t) == Fail(o.error))
    ensures o.Parsed? ==> Args(c, argc, t) == Args(o.cmd, argc + 1, Lex(s, next)) && |Lex(s, next)| < |t|
  {
    assert t[1..] == Lex(s, ps);
    if tok != 'a' {
      return Panic(Syntax), ps;
    }
    if argc + 1 >= MAXARGS {
      return Panic(TooManyArgs), ps;
    }
    o, next := ParseRedirs(AddArg(c, w), s, ps);
  }

  method ParseArgs(cmd: Cmd<Span>, s: string, ps: nat) returns (o: Outcome, next: nat)
    requires ps <= |s| && NulFree(s)
    ensures next <= |s| && Result(s, o, next) == Args(cmd, 0, Lex(s, ps))
  {
    var c, argc := cmd, 0;
    var stop;
    stop, next := Peek(s, ps, "|)&;");
    PeeksStop(Lex(s, ps));
    while !stop
      invariant next <= |s| && argc >= 0 && Args(c, argc, Lex(s, next)) == Args(cmd, 0, Lex(s, ps))
      invariant stop <==> Lex(s, next) != [] && Stops(Lex(s, next)[0])
      decreases |Lex(s, next)|
    {
      ghost var t := Lex(s, next);
      var tok, q, eq;
      tok, q, eq, next := Gettoken(s, next);
      if tok == NUL {
        break;
      }
      o, next := ParseArg(c, argc, tok, Span(q, eq), s, next, t);
      if o.Panic? {
        return;
      }
      c, argc := o.cmd, argc + 1;
      PeeksStop(Lex(s, next));
      stop, next := Peek(s, next, "|)&;");
    }
    o := Parsed(c);
  }

  method ParseExec(s: string, ps: nat) returns (o: Outcome, next: nat)
    requires ps <= |s| && NulFree(s)
    ensures next <= |s| && Result(s, o, next) == Block(Lex(s, ps))
    decreases |Lex(s, ps)|, 1
  {
    var block;
    block, next := Peek(s, ps, "(");
    if block {
      o, next := ParseBlock(s, next);
      return;
    }
    o, next := ParseRedirs(Exec([]), s, next);
    if o.Parsed? {
      o, next := ParseArgs(o.cmd, s, next);
    }
  }

  method ParseBlock(s: string, ps: nat) returns (o: Outcome, next: nat)
    requires ps <= |s| && NulFree(s) && Peeks(Lex(s, ps), "(")
    ensures next <= |s| && Result(s, o, next) == Block(Lex(s, ps))
    decreases |Lex(s, ps)|, 0
  {
    var found;
    found, next := Peek(s, ps, "(");
    assert found;
    next := DropToken(s, next);
    o, next := ParseLine(s, next);
    if o.Panic? {
      return;
    }
    o, next := ParseClose(o.cmd, s, next);
  }

  /** The rest of parseblock, after the line inside. */
  method ParseClose(cmd: Cmd<Span>, s: string, ps: nat) returns (o: Outcome, next: nat)
    requires ps <= |s| && NulFree(s)
    ensures var t := Lex(s, ps);
            && next <= |s|
            && Result(s, o, next) == if t == [] || t[0] != Close then Fail(MissingClose) else Redirs(cmd, t[1..])
  {
    var found;
    found, next := Peek(s, ps, ")");
    if !found {
      return Panic(MissingClose), next;
    }
    next := DropToken(s, next);
    o, next := ParseRedirs(cmd, s, next);
  }

  method ParsePipe(s: string, ps: nat) returns (o: Outcome, next: nat)
    requires ps <= |s| && NulFree(s)
    ensures next <= |s| && Result(s, o, next) == Pipeline(Lex(s, ps))
    decreases |Lex(s, ps)|, 2
  {
    var bar;
    o, next := ParseExec(s, ps);
    if o.Panic? {
      return;
    }
    bar, next := Peek(s, next, "|");
    if bar {
      var p;
      next := DropToken(s, next);
      p, next := ParsePipe(s, next);
      o := if p.Panic? then p else Parsed(Pipe(o.cmd, p.cmd));
    }
  }

  method ParseLine(s: string, ps: nat) returns (o: Outcome, next: nat)
    requires ps <= |s| && NulFree(s)
    ensures next <= |s| && Result(s, o, next) == Line(Lex(s, ps))
    decreases |Lex(s, ps)|, 3
  {
    o, next := ParsePipe(s, ps);
    if o.Panic? {
      return;
    }
    var c;
    c, next := ParseBacks(o.cmd, s, next);
    var semi;
    semi, next := Peek(s, next, ";");
    o := Parsed(c);
    if semi {
      var p;
      next := DropToken(s, next);
      p, next := ParseLine(s, next);
      o := if p.Panic? then p else Parsed(List(c, p.cmd));
    }
  }

  /** The loop of parseline. */
  method ParseBacks(cmd: Cmd<Span>, s: string, ps: nat) returns (c: Cmd<Span>, next: nat)
    requires ps <= |s| && NulFree(s)
    ensures next <= |s| && Ok(c, Lex(s, next)) == Backs(cmd, Lex(s, ps))
  {
    c := cmd;
    var amp;
    amp, next := Peek(s, ps, "&");
    while amp
      invariant next <= |s| && Backs(c, Lex(s, next)) == Backs(cmd, Lex(s, ps)) && (amp <==> Peeks(Lex(s, next), "&"))
      decreases |Lex(s, next)|
    {
      next := DropToken(s, next);
      c := Back(c);
      amp, next := Peek(s, next, "&");
    }
  }

  // ---------- nulterminate ----------

  /** s with NUL at the positions in es. */
  ghost function Struck(s: string, es: set<nat>): (t: string)
    ensures |t| == |s| && forall k :: 0 <= k < |s| ==> t[k] == if k in es then NUL else s[k]
  {
    seq(|s|, k requires 0 <= k < |s| => if k in es then NUL else s[k])
  }

  lemma StruckMore(s: string, es: set<nat>, fs: set<nat>)
    ensures Struck(Struck(s, es), fs) == Struck(s, es + fs)
  {
  }

  ghost function EndsOf(c: Cmd<Span>): set<nat> {
    match c
    case Exec(args) => ArgEnds(args, |args|)
    case Redir(d, file, _) => EndsOf(d) + {file.eq}
    case Pipe(l, r) => EndsOf(l) + EndsOf(r)
    case List(l, r) => EndsOf(l) + EndsOf(r)
    case Back(d) => EndsOf(d)
  }

  ghost function ArgEnds(args: seq<Span>, n: nat): set<nat>
    requires n <= |args|
  {
    if n == 0 then {} else ArgEnds(args, n - 1) + {args[n - 1].eq}
  }

  method Nulterminate(a: array<char>, c: Cmd<Span>, ghost ws: set<Span>)
    requires From(c, ws) && forall w :: w in ws ==> w.eq < a.Length
    modifies a
    ensures a[..] == Struck(old(a[..]), EndsOf(c))
  {
    ghost var s := a[..];
    match c
    case Exec(args) => StrikeArgs(a, args);
    case Redir(d, file, mode) =>
      Nulterminate(a, d, ws);
      a[file.eq] := NUL;
      StruckMore(s, EndsOf(d), {file.eq});
    case Pipe(l, r) =>
      Nulterminate(a, l, ws);
      Nulterminate(a, r, ws);
      StruckMore(s, EndsOf(l), EndsOf(r));
    case List(l, r) =>
      Nulterminate(a, l, ws);
      Nulterminate(a, r, ws);
      StruckMore(s, EndsOf(l), EndsOf(r));
    case Back(d) => Nulterminate(a, d, ws);
  }

  /** Its loop over eargv. */
  method StrikeArgs(a: array<char>, args: seq<Span>)
    requires forall k :: 0 <= k < |args| ==> args[k].eq < a.Length
    modifies a
    ensures a[..] == Struck(old(a[..]), ArgEnds(args, |args|))
  {
    var i := 0;
    assert a[..] == Struck(a[..], {});
    while i < |args|
      invariant 0 <= i <= |args| && a[..] == Struck(old(a[..]), ArgEnds(args, i))
    {
      a[args[i].eq] := NUL;
      i := i + 1;
    }
  }

  ghost predicate AllRuns(s: string, ws: set<Span>) { forall w :: w in ws ==> Run(s, w) }

  lemma {:induction false} EndsFrom(c: Cmd<Span>, ws: set<Span>, e: nat) returns (w: Span)
    requires From(c, ws) && e in EndsOf(c)
    ensures w in ws && w.eq == e
  {
    match c
    case Exec(args) =>
      var n := |args|;
      while args[n - 1].eq != e
        invariant 0 < n <= |args| && e in ArgEnds(args, n)
        decreases n
      {
        n := n - 1;
      }
      w := args[n - 1];
    case Redir(d, file, mode) =>
      if e == file.eq {
        w := file;
      } else {
        w := EndsFrom(d, ws, e);
      }
    case Pipe(l, r) =>
      if e in EndsOf(l) {
        w := EndsFrom(l, ws, e);
      } else {
        w := EndsFrom(r, ws, e);
      }
    case List(l, r) =>
      if e in EndsOf(l) {
        w := EndsFrom(l, ws, e);
      } else {
        w := EndsFrom(r, ws, e);
      }
    case Back(d) => w := EndsFrom(d, ws, e);
  }

  /** A string that ends at a NUL reads as its characters. */
  lemma {:induction false} CStringIs(t: string, q: nat, e: nat)
    requires q <= e < |t| && t[e] == NUL && forall k :: q <= k < e ==> t[k] != NUL
    ensures CString(t, q) == t[q..e]
    decreases e - q
  {
    if q < e {
      CStringIs(t, q + 1, e);
    }
  }

  /** nulterminate overwrites no character of any word of the line. */
  lemma WordsKept(s: string, b: string, c: Cmd<Span>, ws: set<Span>, w: Span, k: nat)
    requires AllRuns(s, ws) && From(c, ws) && Run(s, w) && w.q <= k < w.eq && |s| < |b| && b[..|s|] == s
    ensures Struck(b, EndsOf(c))[k] == s[k] != NUL
  {
    assert s[k] == b[..|s|][k];
    if k in EndsOf(c) {
      var v := EndsFrom(c, ws, k);
      RunsApart(s, v, w);
    }
  }

  /** Each word reads back as its token. */
  lemma WordReads(s: string, b: string, c: Cmd<Span>, ws: set<Span>, w: Span)
    requires AllRuns(s, ws) && From(c, ws) && w in ws && w.eq in EndsOf(c) && |s| < |b| && b[..|s|] == s
    ensures CString(Struck(b, EndsOf(c)), w.q) == Cut(s, w)
  {
    var t := Struck(b, EndsOf(c));
    forall k | w.q <= k < w.eq
      ensures t[k] == s[k] != NUL
    {
      WordsKept(s, b, c, ws, w, k);
    }
    CStringIs(t, w.q, w.eq);
    assert t[w.q..w.eq] == s[w.q..w.eq];
  }

  lemma {:induction false} FromEnds(c: Cmd<Span>, ws: set<Span>, es: set<nat>)
    requires From(c, ws) && EndsOf(c) <= es
    ensures From(c, set w | w in ws && w.eq in es)
  {
    match c
    case Exec(args) =>
      forall k | 0 <= k < |args|
        ensures args[k].eq in es
      {
        ArgEndsAll(args, |args|, k);
      }
    case Redir(d, file, mode) => FromEnds(d, ws, es);
    case Pipe(l, r) => FromEnds(l, ws, es); FromEnds(r, ws, es);
    case List(l, r) => FromEnds(l, ws, es); FromEnds(r, ws, es);
    case Back(d) => FromEnds(d, ws, es);
  }

  lemma {:induction false} ArgEndsAll(args: seq<Span>, n: nat, k: nat)
    requires k < n <= |args|
    ensures args[k].eq in ArgEnds(args, n)
    decreases n
  {
    if k < n - 1 {
      ArgEndsAll(args, n - 1, k);
    }
  }

  function Reader(b: string): Span -> string { (w: Span) => CString(b, w.q) }

  /** After nulterminate the strings of the command are its tokens. */
  lemma CommandReads(s: string, b: string, c: Cmd<Span>, ws: set<Span>)
    requires AllRuns(s, ws) && From(c, ws) && |s| < |b| && b[..|s|] == s
    ensures Each(c, Reader(Struck(b, EndsOf(c)))) == Each(c, Cutter(s))
  {
    var t, us := Struck(b, EndsOf(c)), set w | w in ws && w.eq in EndsOf(c);
    FromEnds(c, ws, EndsOf(c));
    forall w | w in us
      ensures Reader(t)(w) == Cutter(s)(w)
    {
      WordReads(s, b, c, ws, w);
    }
    EachSame(c, us, Reader(t), Cutter(s));
  }

  ghost function LexWordsOf(s: string): (ws: set<Span>)
    requires NulFree(s)
    ensures AllRuns(s, ws) && Within(Lex(s, 0), ws)
  {
    var t := Lex(s, 0);
    var ws := set k | 0 <= k < |t| && t[k].Word? :: t[k].word;
    assert AllRuns(s, ws) by {
      forall w | w in ws
        ensures Run(s, w)
      {
        var k :| 0 <= k < |t| && t[k].Word? && t[k].word == w;
        LexRuns(s, 0, k);
      }
    }
    ws
  }

  /** strlen. */
  ghost function Text(b: string): (s: string)
    requires NUL in b
    ensures |s| < |b| && b[..|s|] == s && b[|s|] == NUL && NulFree(s)
  {
    if b[0] == NUL then "" else
    assert NUL in b[1..];
    [b[0]] + Text(b[1..])
  }

  lemma {:induction false} TextIs(b: string, n: nat)
    requires n < |b| && b[n] == NUL && NulFree(b[..n])
    ensures NUL in b && Text(b) == b[..n]
    decreases n
  {
    if n > 0 {
      assert b[0] == b[..n][0] && b[1..][..n - 1] == b[..n][1..];
      TextIs(b[1..], n - 1);
      assert b[..n] == [b[0]] + b[1..][..n - 1];
    }
  }

  method Strlen(a: array<char>) returns (n: nat)
    requires NUL in a[..]
    ensures n < a.Length && a[..n] == Text(a[..])
  {
    n := 0;
    while a[n] != NUL
      invariant 0 <= n < a.Length && NulFree(a[..n]) && NUL in a[n..]
      decreases a.Length - n
    {
      assert a[n..] == [a[n]] + a[n + 1..];
      n := n + 1;
    }
    assert a[..][..n] == a[..n];
    TextIs(a[..], n);
  }

  /** parsecmd.  It gives what the grammar gives on the tokens of the line.  The words of the command it
      returns read, as NUL-terminated strings, as the tokens did. */
  method Parsecmd(a: array<char>) returns (o: Outcome)
    requires NUL in a[..]
    modifies a
    ensures var s := Text(old(a[..])); Whole(Lex(s, 0)) == Result(s, o, |s|)
    ensures o.Parsed? ==> Each(o.cmd, Reader(a[..])) == Each(o.cmd, Cutter(Text(old(a[..]))))
    ensures o.Parsed? ==> a[..] == Struck(old(a[..]), EndsOf(o.cmd))
  {
    ghost var b := a[..];
    var es := Strlen(a);
    var s := a[..es];
    ghost var ws := LexWordsOf(s);
    var next, found;
    LineMade(Lex(s, 0), ws);
    o, next := ParseLine(s, 0);
    if o.Panic? {
      return;
    }
    found, next := Peek(s, next, "");
    if next != es {
      return Panic(Leftovers);
    }
    assert From(o.cmd, ws);
    Nulterminate(a, o.cmd, ws);
    CommandReads(s, b, o.cmd, ws);
  }

  /** A line that is the print of a command is parsed to that command, as its strings read afterwards. */
  lemma PrintReads(c: Cmd<string>, o: Outcome, t: string)
    requires LegalCmd(c) && Fits(c) && Whole(Lex(Print(c), 0)) == Result(Print(c), o, |Print(c)|)
    requires o.Parsed? ==> Each(o.cmd, Reader(t)) == Each(o.cmd, Cutter(Print(c)))
    ensures o.Parsed? && Each(o.cmd, Reader(t)) == c
  {
    ParsePrint(c);
  }
}
