/** The command parser of user/sh.c. */
module Shell {
  const MAXARGS: nat := 10
  const NUL: char := '\0'

  /** whitespace[] and symbols[]. */
  predicate White(c: char) { c == ' ' || c == '\t' || c == '\r' || c == '\n' || c == '\U{000B}' }

  predicate Symbol(c: char) { c == '<' || c == '|' || c == '>' || c == '&' || c == ';' || c == '(' || c == ')' }

  predicate Plain(c: char) { !White(c) && !Symbol(c) && c != NUL }

  // ---------- commands and tokens, over any kind of word ----------

  datatype Mode = Input | Output | Append

  datatype Cmd<W> =
    | Exec(args: seq<W>)
    | Redir(cmd: Cmd<W>, file: W, mode: Mode)
    | Pipe(left: Cmd<W>, right: Cmd<W>)
    | List(left: Cmd<W>, right: Cmd<W>)
    | Back(cmd: Cmd<W>)

  datatype Token<W> = Word(word: W) | Arrow(mode: Mode) | Bar | Amp | Semi | Open | Close

  /** The messages of panic. */
  datatype Error = MissingFile | MissingClose | TooManyArgs | Syntax | Leftovers

  datatype Parse<W> = Ok(cmd: Cmd<W>, rest: seq<Token<W>>) | Fail(error: Error)

  // ---------- the grammar, on tokens ----------

  predicate Stops<W(==)>(t: Token<W>) { t == Bar || t == Close || t == Amp || t == Semi }

  /** Redirections, each around what comes before it. */
  function Redirs<W(==)>(c: Cmd<W>, t: seq<Token<W>>): (p: Parse<W>)
    ensures p.Ok? ==> |p.rest| <= |t|
    decreases |t|
  {
    if t == [] || !t[0].Arrow? then Ok(c, t)
    else if |t| == 1 || !t[1].Word? then Fail(MissingFile)
    else Redirs(Redir(c, t[1].word, t[0].mode), t[2..])
  }

  /** The argument appended to the EXEC inside its redirections. */
  function AddArg<W>(c: Cmd<W>, w: W): Cmd<W> {
    match c
    case Exec(args) => Exec(args + [w])
    case Redir(d, file, mode) => Redir(AddArg(d, w), file, mode)
    case _ => c
  }

  /** Arguments and redirections, in any order. */
  function Args<W(==)>(c: Cmd<W>, n: nat, t: seq<Token<W>>): (p: Parse<W>)
    ensures p.Ok? ==> |p.rest| <= |t|
    decreases |t|
  {
    if t == [] || Stops(t[0]) then Ok(c, t)
    else if !t[0].Word? then Fail(Syntax)
    else if n + 1 >= MAXARGS then Fail(TooManyArgs)
    else
      var p := Redirs(AddArg(c, t[0].word), t[1..]);
      if p.Fail? then p else Args(p.cmd, n + 1, p.rest)
  }

  function Simple<W(==)>(t: seq<Token<W>>): (p: Parse<W>)
    ensures p.Ok? ==> |p.rest| <= |t|
  {
    var p := Redirs(Exec([]), t);
    if p.Fail? then p else Args(p.cmd, 0, p.rest)
  }

  function Block<W(==)>(t: seq<Token<W>>): (p: Parse<W>)
    ensures p.Ok? ==> |p.rest| <= |t|
    decreases |t|, 0
  {
    if t == [] || t[0] != Open then Simple(t)
    else
      var p := Line(t[1..]);
      if p.Fail? then p
      else if p.rest == [] || p.rest[0] != Close then Fail(MissingClose)
      else Redirs(p.cmd, p.rest[1..])
  }

  function Pipeline<W(==)>(t: seq<Token<W>>): (p: Parse<W>)
    ensures p.Ok? ==> |p.rest| <= |t|
    decreases |t|, 1
  {
    var p := Block(t);
    if p.Fail? || p.rest == [] || p.rest[0] != Bar then p
    else
      var q := Pipeline(p.rest[1..]);
      if q.Fail? then q else Ok(Pipe(p.cmd, q.cmd), q.rest)
  }

  function Backs<W(==)>(c: Cmd<W>, t: seq<Token<W>>): (p: Parse<W>)
    ensures p.Ok? && |p.rest| <= |t|
    decreases |t|
  {
    if t == [] || t[0] != Amp then Ok(c, t) else Backs(Back(c), t[1..])
  }

  function Line<W(==)>(t: seq<Token<W>>): (p: Parse<W>)
    ensures p.Ok? ==> |p.rest| <= |t|
    decreases |t|, 2
  {
    var p := Pipeline(t);
    if p.Fail? then p
    else
      var b := Backs(p.cmd, p.rest);
      if b.rest == [] || b.rest[0] != Semi then b
      else
        var q := Line(b.rest[1..]);
        if q.Fail? then q else Ok(List(b.cmd, q.cmd), q.rest)
  }

  /** A whole command line. */
  function Whole<W(==)>(t: seq<Token<W>>): Parse<W> {
    var p := Line(t);
    if p.Ok? && p.rest != [] then Fail(Leftovers) else p
  }

  // ---------- print and parse ----------

  /** Every EXEC has room for the terminating null. */
  predicate Fits<W>(c: Cmd<W>) {
    match c
    case Exec(args) => |args| < MAXARGS
    case Redir(d, _, _) => Fits(d)
    case Pipe(l, r) => Fits(l) && Fits(r)
    case List(l, r) => Fits(l) && Fits(r)
    case Back(d) => Fits(d)
  }

  function Words<W>(args: seq<W>): seq<Token<W>> {
    if args == [] then [] else [Word(args[0])] + Words(args[1..])
  }

  /** The parenthesised form of a command. */
  function Tokens<W>(c: Cmd<W>): seq<Token<W>> {
    match c
    case Exec(args) => Words(args)
    case Redir(d, file, mode) => [Open] + Tokens(d) + [Close] + [Arrow(mode), Word(file)]
    case Pipe(l, r) => [Open] + Tokens(l) + [Close] + [Bar] + ([Open] + Tokens(r) + [Close])
    case List(l, r) => [Open] + Tokens(l) + [Close] + [Semi] + ([Open] + Tokens(r) + [Close])
    case Back(d) => [Open] + Tokens(d) + [Close] + [Amp]
  }

  predicate Ends<W(==)>(rest: seq<Token<W>>) { rest == [] || rest[0] == Close }

  lemma {:induction false} ArgsBack<W>(done: seq<W>, args: seq<W>, rest: seq<Token<W>>)
    requires |done| + |args| < MAXARGS && Ends(rest)
    ensures Args(Exec(done), |done|, Words(args) + rest) == Ok(Exec(done + args), rest)
    decreases |args|
  {
    var t := Words(args) + rest;
    if args == [] {
      assert t == rest && done + args == done;
    } else {
      var more := done + [args[0]];
      assert t == [Word(args[0])] + (Words(args[1..]) + rest);
      assert t[1..] == Words(args[1..]) + rest;
      ArgsBack(more, args[1..], rest);
      assert more + args[1..] == done + args;
      assert t[1..] == [] || !t[1..][0].Arrow?;
    }
  }

  /** A parenthesised command comes back, with the redirections after it. */
  lemma {:induction false} GroupBack<W>(c: Cmd<W>, rest: seq<Token<W>>)
    requires Fits(c)
    ensures Block([Open] + Tokens(c) + [Close] + rest) == Redirs(c, rest)
    decreases c, 2
  {
    var t := [Open] + Tokens(c) + [Close] + rest;
    assert t[1..] == Tokens(c) + ([Close] + rest);
    LineBack(c, [Close] + rest);
    assert ([Close] + rest)[1..] == rest;
  }

  /** A parenthesised command, where neither a redirection nor a bar follows. */
  lemma GroupAlone<W>(c: Cmd<W>, rest: seq<Token<W>>)
    requires Fits(c) && (rest == [] || (!rest[0].Arrow? && rest[0] != Bar))
    requires Block([Open] + Tokens(c) + [Close] + rest) == Redirs(c, rest)
    ensures Pipeline([Open] + Tokens(c) + [Close] + rest) == Ok(c, rest)
  {
  }

  /** Parsing the parenthesised form gives the command back. */
  lemma {:induction false} LineBack<W>(c: Cmd<W>, rest: seq<Token<W>>)
    requires Fits(c) && Ends(rest)
    ensures Line(Tokens(c) + rest) == Ok(c, rest)
    decreases c, 1
  {
    match c
    case Exec(args) =>
      ArgsBack([], args, rest);
      assert [] + args == args;
      assert Block(Tokens(c) + rest) == Ok(c, rest);
    case Redir(d, file, mode) =>
      var after := [Arrow(mode), Word(file)] + rest;
      assert Tokens(c) + rest == [Open] + Tokens(d) + [Close] + after;
      GroupBack(d, after);
      assert after[2..] == rest;
    case Pipe(l, r) =>
      PipeBack(l, r, rest);
    case List(l, r) =>
      ListBack(l, r, rest);
    case Back(d) =>
      assert Tokens(c) + rest == [Open] + Tokens(d) + [Close] + ([Amp] + rest);
      GroupBack(d, [Amp] + rest);
      GroupAlone(d, [Amp] + rest);
      assert ([Amp] + rest)[1..] == rest;
      assert Backs(d, [Amp] + rest) == Ok(c, rest);
  }

  lemma {:induction false} ListBack<W>(l: Cmd<W>, r: Cmd<W>, rest: seq<Token<W>>)
    requires Fits(l) && Fits(r) && Ends(rest)
    ensures Line(Tokens(List(l, r)) + rest) == Ok(List(l, r), rest)
    decreases List(l, r), 0
  {
    var right := [Open] + Tokens(r) + [Close] + rest;
    var t := [Open] + Tokens(l) + [Close] + ([Semi] + right);
    assert Tokens(List(l, r)) + rest == t;
    GroupBack(l, [Semi] + right);
    GroupAlone(l, [Semi] + right);
    assert ([Semi] + right)[1..] == right;
    GroupBack(r, rest);
    GroupAlone(r, rest);
    assert Line(right) == Ok(r, rest);
    assert Backs(l, [Semi] + right) == Ok(l, [Semi] + right);
  }

  lemma {:induction false} PipeBack<W>(l: Cmd<W>, r: Cmd<W>, rest: seq<Token<W>>)
    requires Fits(l) && Fits(r) && Ends(rest)
    ensures Pipeline(Tokens(Pipe(l, r)) + rest) == Ok(Pipe(l, r), rest)
    decreases Pipe(l, r), 0
  {
    var right := [Open] + Tokens(r) + [Close] + rest;
    assert Tokens(Pipe(l, r)) + rest == [Open] + Tokens(l) + [Close] + ([Bar] + right);
    GroupBack(l, [Bar] + right);
    assert ([Bar] + right)[1..] == right;
    GroupBack(r, rest);
    GroupAlone(r, rest);
  }

  // ---------- what a parsed command is made of ----------

  ghost predicate Within<W(!new)>(t: seq<Token<W>>, ws: set<W>) {
    forall k :: 0 <= k < |t| && t[k].Word? ==> t[k].word in ws
  }

  /** The command fits and its words are in ws. */
  ghost predicate Made<W(!new)>(c: Cmd<W>, ws: set<W>) { Fits(c) && From(c, ws) }

  ghost predicate From<W(!new)>(c: Cmd<W>, ws: set<W>) {
    match c
    case Exec(args) => forall k :: 0 <= k < |args| ==> args[k] in ws
    case Redir(d, file, _) => From(d, ws) && file in ws
    case Pipe(l, r) => From(l, ws) && From(r, ws)
    case List(l, r) => From(l, ws) && From(r, ws)
    case Back(d) => From(d, ws)
  }

  /** An EXEC with n arguments inside redirections. */
  predicate Chain<W>(c: Cmd<W>, n: nat) {
    match c
    case Exec(args) => |args| == n
    case Redir(d, _, _) => Chain(d, n)
    case _ => false
  }

  lemma {:induction false} ChainMade<W(!new)>(c: Cmd<W>, n: nat, w: W, ws: set<W>)
    requires Chain(c, n) && Made(c, ws) && w in ws
    ensures Chain(AddArg(c, w), n + 1) && From(AddArg(c, w), ws) && (n + 1 < MAXARGS ==> Made(AddArg(c, w), ws))
  {
    if c.Redir? {
      ChainMade(c.cmd, n, w, ws);
    }
  }

  lemma {:induction false} RedirsMade<W(!new)>(c: Cmd<W>, t: seq<Token<W>>, ws: set<W>)
    requires Made(c, ws) && Within(t, ws)
    ensures var p := Redirs(c, t);
            p.Ok? ==> Made(p.cmd, ws) && Within(p.rest, ws) && forall n :: Chain(c, n) ==> Chain(p.cmd, n)
    decreases |t|
  {
    if |t| > 1 && t[0].Arrow? && t[1].Word? {
      RedirsMade(Redir(c, t[1].word, t[0].mode), t[2..], ws);
    }
  }

  lemma {:induction false} ArgsMade<W(!new)>(c: Cmd<W>, n: nat, t: seq<Token<W>>, ws: set<W>)
    requires Chain(c, n) && Made(c, ws) && Within(t, ws)
    ensures var p := Args(c, n, t); p.Ok? ==> Made(p.cmd, ws) && Within(p.rest, ws)
    decreases |t|
  {
    if t != [] && !Stops(t[0]) && t[0].Word? && n + 1 < MAXARGS {
      ChainMade(c, n, t[0].word, ws);
      RedirsMade(AddArg(c, t[0].word), t[1..], ws);
      var p := Redirs(AddArg(c, t[0].word), t[1..]);
      if p.Ok? {
        ArgsMade(p.cmd, n + 1, p.rest, ws);
      }
    }
  }

  lemma {:induction false} BacksMade<W(!new)>(c: Cmd<W>, t: seq<Token<W>>, ws: set<W>)
    requires Made(c, ws) && Within(t, ws)
    ensures var p := Backs(c, t); Made(p.cmd, ws) && Within(p.rest, ws)
    decreases |t|
  {
    if t != [] && t[0] == Amp {
      BacksMade(Back(c), t[1..], ws);
    }
  }

  lemma {:induction false} BlockMade<W(!new)>(t: seq<Token<W>>, ws: set<W>)
    requires Within(t, ws)
    ensures var p := Block(t); p.Ok? ==> Made(p.cmd, ws) && Within(p.rest, ws)
    decreases |t|, 0
  {
    if t == [] || t[0] != Open {
      RedirsMade(Exec([]), t, ws);
      var p := Redirs(Exec([]), t);
      if p.Ok? {
        ArgsMade(p.cmd, 0, p.rest, ws);
      }
    } else {
      LineMade(t[1..], ws);
      var p := Line(t[1..]);
      if p.Ok? && p.rest != [] {
        RedirsMade(p.cmd, p.rest[1..], ws);
      }
    }
  }

  lemma {:induction false} PipelineMade<W(!new)>(t: seq<Token<W>>, ws: set<W>)
    requires Within(t, ws)
    ensures var p := Pipeline(t); p.Ok? ==> Made(p.cmd, ws) && Within(p.rest, ws)
    decreases |t|, 1
  {
    BlockMade(t, ws);
    var p := Block(t);
    if p.Ok? && p.rest != [] && p.rest[0] == Bar {
      PipelineMade(p.rest[1..], ws);
    }
  }

  /** A parsed command has at most MAXARGS - 1 arguments to an EXEC, and its words are words of the input. */
  lemma {:induction false} LineMade<W(!new)>(t: seq<Token<W>>, ws: set<W>)
    requires Within(t, ws)
    ensures var p := Line(t); p.Ok? ==> Made(p.cmd, ws) && Within(p.rest, ws)
    decreases |t|, 2
  {
    PipelineMade(t, ws);
    var p := Pipeline(t);
    if p.Ok? {
      BacksMade(p.cmd, p.rest, ws);
      var b := Backs(p.cmd, p.rest);
      if b.rest != [] && b.rest[0] == Semi {
        LineMade(b.rest[1..], ws);
      }
    }
  }

  /** The parenthesised form parses to the command exactly when every EXEC has room. */
  lemma RoundTrip<W(!new)>(c: Cmd<W>)
    ensures Whole(Tokens(c)) == Ok(c, []) <==> Fits(c)
  {
    if Fits(c) {
      LineBack(c, []);
      assert Tokens(c) + [] == Tokens(c);
    } else {
      var t := Tokens(c);
      LineMade(t, set k | 0 <= k < |t| && t[k].Word? :: t[k].word);
    }
  }
}
