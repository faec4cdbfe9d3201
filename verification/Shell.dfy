/**
 * The command parser of user/sh.c: the cursor-moving code is proved against a parser on token
 * sequences, which in turn undoes a printer.
 */
module Shell {
  import opened Collections

  const MAXARGS := 10

  /** <, > and >> */
  datatype Mode = In | Out | App

  /** struct cmd; W is a word, or the place of a word in the line. */
  datatype Cmd<W> =
    | Exec(args: seq<W>)
    | Redir(cmd: Cmd<W>, file: W, mode: Mode)
    | Pipe(left: Cmd<W>, right: Cmd<W>)
    | List(left: Cmd<W>, right: Cmd<W>)
    | Back(cmd: Cmd<W>)

  datatype Token = Sym(c: char) | Arrow(mode: Mode) | Word(w: string)

  // ---- characters

  predicate White(c: char) { c == ' ' || c == '\t' || c == '\r' || c == '\n' || c == '\U{0b}' }

  predicate Symbol(c: char) { c == '<' || c == '|' || c == '>' || c == '&' || c == ';' || c == '(' || c == ')' }

  predicate WordChar(c: char) { !White(c) && !Symbol(c) }

  /** The length of the word at the beginning of s. */
  function WordLen(s: string): (n: nat)
    ensures n <= |s| && (forall i :: 0 <= i < n ==> WordChar(s[i])) && (n < |s| ==> !WordChar(s[n]))
  {
    if s == [] || !WordChar(s[0]) then 0
    else
      var n := WordLen(s[1..]);
      assert forall i :: 1 <= i < n + 1 ==> s[i] == s[1..][i - 1];
      n + 1
  }

  /** The tokens of a line. */
  function Lex(s: string): (ts: seq<Token>) {
    if s == [] then []
    else if White(s[0]) then Lex(s[1..])
    else if s[0] == '<' then [Arrow(In)] + Lex(s[1..])
    else if s[0] == '>' then
      if |s| > 1 && s[1] == '>' then [Arrow(App)] + Lex(s[2..]) else [Arrow(Out)] + Lex(s[1..])
    else if Symbol(s[0]) then [Sym(s[0])] + Lex(s[1..])
    else [Word(s[..WordLen(s)])] + Lex(s[WordLen(s)..])
  }

  // ---- the parser on tokens

  datatype Result = Ok(cmd: Cmd<string>, rest: seq<Token>) | Fail

  datatype Redirs = Redirs(rs: seq<(string, Mode)>, rest: seq<Token>) | NoFile

  predicate Starts(ts: seq<Token>, c: char) { ts != [] && ts[0] == Sym(c) }

  /** The end of an exec command. */
  predicate Stops(ts: seq<Token>) { ts == [] || Starts(ts, '|') || Starts(ts, ')') || Starts(ts, '&')
    || Starts(ts, ';') }

  function Wrap<W>(cmd: Cmd<W>, rs: seq<(W, Mode)>): (r: Cmd<W>)
    decreases |rs|
  {
    if rs == [] then cmd else Redir(Wrap(cmd, rs[..|rs| - 1]), rs[|rs| - 1].0, rs[|rs| - 1].1)
  }

  function ParseRedirs(ts: seq<Token>): (r: Redirs)
    ensures r.Redirs? ==> |r.rest| <= |ts|
  {
    if ts == [] || !ts[0].Arrow? then Redirs([], ts)
    else if |ts| < 2 || !ts[1].Word? then NoFile
    else
      match ParseRedirs(ts[2..])
      case NoFile => NoFile
      case Redirs(rs, rest) => Redirs([(ts[1].w, ts[0].mode)] + rs, rest)
  }

  function ParseArgs(ts: seq<Token>, args: seq<string>, rs: seq<(string, Mode)>): (r: Result)
    ensures r.Ok? ==> |r.rest| <= |ts|
    decreases |ts|
  {
    if Stops(ts) then Ok(Wrap(Exec(args), rs), ts)
    else if !ts[0].Word? || |args| + 1 >= MAXARGS then Fail
    else
      match ParseRedirs(ts[1..])
      case NoFile => Fail
      case Redirs(more, rest) => ParseArgs(rest, args + [ts[0].w], rs + more)
  }

  function ParseExec(ts: seq<Token>): (r: Result)
    ensures r.Ok? ==> |r.rest| <= |ts|
    decreases |ts|, 0
  {
    if Starts(ts, '(') then
      match ParseLine(ts[1..])
      case Fail => Fail
      case Ok(cmd, rest) =>
        if !Starts(rest, ')') then Fail
        else
          (match ParseRedirs(rest[1..])
           case NoFile => Fail
           case Redirs(rs, rest') => Ok(Wrap(cmd, rs), rest'))
    else
      match ParseRedirs(ts)
      case NoFile => Fail
      case Redirs(rs, rest) => ParseArgs(rest, [], rs)
  }

  function ParsePipe(ts: seq<Token>): (r: Result)
    ensures r.Ok? ==> |r.rest| <= |ts|
    decreases |ts|, 1
  {
    match ParseExec(ts)
    case Fail => Fail
    case Ok(cmd, rest) =>
      if !Starts(rest, '|') then Ok(cmd, rest)
      else
        (match ParsePipe(rest[1..])
         case Fail => Fail
         case Ok(right, rest') => Ok(Pipe(cmd, right), rest'))
  }

  /** while (peek "&") cmd = backcmd(cmd) */
  function Backs(cmd: Cmd<string>, ts: seq<Token>): (r: (Cmd<string>, seq<Token>))
    ensures |r.1| <= |ts|
    decreases |ts|
  {
    if Starts(ts, '&') then Backs(Back(cmd), ts[1..]) else (cmd, ts)
  }

  function ParseLine(ts: seq<Token>): (r: Result)
    ensures r.Ok? ==> |r.rest| <= |ts|
    decreases |ts|, 2
  {
    match ParsePipe(ts)
    case Fail => Fail
    case Ok(first, rest0) =>
      var (cmd, rest) := Backs(first, rest0);
      if !Starts(rest, ';') then Ok(cmd, rest)
      else
        (match ParseLine(rest[1..])
         case Fail => Fail
         case Ok(right, rest') => Ok(List(cmd, right), rest'))
  }

  /** The whole line must be one command. */
  function ParseCmd(ts: seq<Token>): (r: Option<Cmd<string>>) {
    match ParseLine(ts)
    case Fail => None
    case Ok(cmd, rest) => if rest == [] then Some(cmd) else None
  }

  // ---- the printer

  predicate LegalWord(w: string) { w != [] && forall i :: 0 <= i < |w| ==> WordChar(w[i]) && w[i] != '\0' }

  /** A command that can be written down: legal words, and fewer than MAXARGS arguments. */
  predicate Legal(c: Cmd<string>) {
    match c
    case Exec(args) => |args| < MAXARGS && forall i :: 0 <= i < |args| ==> LegalWord(args[i])
    case Redir(d, file, mode) => Legal(d) && LegalWord(file)
    case Pipe(l, r) => Legal(l) && Legal(r)
    case List(l, r) => Legal(l) && Legal(r)
    case Back(d) => Legal(d)
  }

  function Paren(ts: seq<Token>): (r: seq<Token>) { [Sym('(')] + ts + [Sym(')')] }

  function Words(args: seq<string>): (ts: seq<Token>)
    ensures |ts| == |args| && forall i :: 0 <= i < |args| ==> ts[i] == Word(args[i])
  {
    seq(|args|, i requires 0 <= i < |args| => Word(args[i]))
  }

  /** A simple command, or a parenthesised one, with its redirections. */
  function RedirToks(c: Cmd<string>): (ts: seq<Token>)
    requires c.Exec? || c.Redir?
    decreases c, 0
  {
    match c
    case Exec(args) => Words(args)
    case Redir(d, file, mode) =>
      (if d.Exec? || d.Redir? then RedirToks(d) else Paren(LineToks(d))) + [Arrow(mode), Word(file)]
  }

  function ExecToks(c: Cmd<string>): (ts: seq<Token>)
    decreases c, 2
  {
    if c.Exec? || c.Redir? then RedirToks(c) else Paren(LineToks(c))
  }

  function PipeToks(c: Cmd<string>): (ts: seq<Token>)
    decreases c, 3
  {
    if c.Pipe? then ExecToks(c.left) + [Sym('|')] + PipeToks(c.right) else ExecToks(c)
  }

  function BackToks(c: Cmd<string>): (ts: seq<Token>)
    decreases c, 4
  {
    if c.Back? then BackToks(c.cmd) + [Sym('&')] else PipeToks(c)
  }

  /** A command as it stands on a line: parentheses only where the grammar needs them. */
  function LineToks(c: Cmd<string>): (ts: seq<Token>)
    decreases c, 1
  {
    match c
    case List(l, r) => BackToks(l) + [Sym(';')] + LineToks(r)
    case Back(d) => BackToks(d) + [Sym('&')]
    case Pipe(l, r) => ExecToks(l) + [Sym('|')] + PipeToks(r)
    case Exec(args) => RedirToks(c)
    case Redir(d, file, mode) => RedirToks(c)
  }

  // ---- parsing what was printed, on tokens

  function Size(c: Cmd<string>): (n: nat) {
    match c
    case Exec(args) => 1
    case Redir(d, file, mode) => Size(d) + 1
    case Pipe(l, r) => Size(l) + Size(r) + 1
    case List(l, r) => Size(l) + Size(r) + 1
    case Back(d) => Size(d) + 1
  }

  /** The command under the redirections, and the redirections. */
  function Core(c: Cmd<string>): (d: Cmd<string>)
    ensures !d.Redir? && Size(d) <= Size(c) && (c.Redir? ==> Size(d) < Size(c)) && (Legal(c) ==> Legal(d))
  {
    if c.Redir? then Core(c.cmd) else c
  }

  function RedirsOf(c: Cmd<string>): (rs: seq<(string, Mode)>) {
    if c.Redir? then RedirsOf(c.cmd) + [(c.file, c.mode)] else []
  }

  lemma {:induction false} Rewrap(c: Cmd<string>)
    ensures Wrap(Core(c), RedirsOf(c)) == c
    decreases Size(c)
  {
    if c.Redir? {
      Rewrap(c.cmd);
      assert RedirsOf(c)[..|RedirsOf(c)| - 1] == RedirsOf(c.cmd);
    }
  }

  function ArrowToks(rs: seq<(string, Mode)>): (ts: seq<Token>)
    ensures |ts| == 2 * |rs| && (rs != [] ==> ts[0].Arrow?)
  {
    if rs == [] then [] else [Arrow(rs[0].1), Word(rs[0].0)] + ArrowToks(rs[1..])
  }

  lemma {:induction false} ArrowAppend(rs: seq<(string, Mode)>, x: (string, Mode))
    ensures ArrowToks(rs + [x]) == ArrowToks(rs) + [Arrow(x.1), Word(x.0)]
  {
    if rs == [] {
      assert rs + [x] == [x];
      assert ArrowToks([x][1..]) == [];
    } else {
      ArrowAppend(rs[1..], x);
      assert (rs + [x])[1..] == rs[1..] + [x];
    }
  }

  function CoreToks(d: Cmd<string>): (ts: seq<Token>) {
    if d.Exec? then Words(d.args) else Paren(LineToks(d))
  }

  lemma {:induction false} RedirToksAre(c: Cmd<string>)
    requires c.Exec? || c.Redir?
    ensures RedirToks(c) == CoreToks(Core(c)) + ArrowToks(RedirsOf(c))
    decreases Size(c)
  {
    if c.Redir? {
      ArrowAppend(RedirsOf(c.cmd), (c.file, c.mode));
      if c.cmd.Exec? || c.cmd.Redir? {
        RedirToksAre(c.cmd);
      }
      assert CoreToks(Core(c)) + ArrowToks(RedirsOf(c.cmd)) + [Arrow(c.mode), Word(c.file)]
          == CoreToks(Core(c)) + (ArrowToks(RedirsOf(c.cmd)) + [Arrow(c.mode), Word(c.file)]);
    }
  }

  lemma {:induction false} ParsesArrows(rs: seq<(string, Mode)>, rest: seq<Token>)
    requires rest == [] || !rest[0].Arrow?
    ensures ParseRedirs(ArrowToks(rs) + rest) == Redirs(rs, rest)
  {
    var ts := ArrowToks(rs) + rest;
    if rs == [] {
      assert ts == rest;
    } else {
      ParsesArrows(rs[1..], rest);
      assert ts[2..] == ArrowToks(rs[1..]) + rest;
      assert [rs[0]] + rs[1..] == rs;
    }
  }

  lemma {:induction false} ParsesWords(args: seq<string>, k: nat, rs: seq<(string, Mode)>, rest: seq<Token>)
    requires k < |args| < MAXARGS && Stops(rest)
    ensures ParseArgs(Words(args[k..]) + (ArrowToks(rs) + rest), args[..k], []) == Ok(Wrap(Exec(args), rs), rest)
    decreases |args| - k
  {
    var ts := Words(args[k..]) + (ArrowToks(rs) + rest);
    assert ts[0] == Word(args[k]);
    assert ts[1..] == Words(args[k + 1..]) + (ArrowToks(rs) + rest);
    assert args[..k] + [args[k]] == args[..k + 1];
    var none: seq<(string, Mode)> := [];
    if k + 1 < |args| {
      assert ts[1..][0] == Word(args[k + 1]);
      assert none + none == none;
      ParsesWords(args, k + 1, rs, rest);
    } else {
      assert Words(args[k + 1..]) == [];
      assert ts[1..] == ArrowToks(rs) + rest;
      ParsesArrows(rs, rest);
      assert none + rs == rs;
      assert args[..k + 1] == args;
    }
  }

  /** An exec command without parentheses. */
  lemma ParsesSimple(args: seq<string>, rs: seq<(string, Mode)>, rest: seq<Token>)
    requires |args| < MAXARGS && Stops(rest)
    ensures ParseExec(Words(args) + (ArrowToks(rs) + rest)) == Ok(Wrap(Exec(args), rs), rest)
  {
    var ts := Words(args) + (ArrowToks(rs) + rest);
    if args == [] {
      assert ts == ArrowToks(rs) + rest;
      ParsesArrows(rs, rest);
    } else {
      assert ts[0] == Word(args[0]);
      ParsesWords(args, 0, rs, rest);
      assert args[0..] == args && args[..0] == [];
    }
  }

  lemma {:induction false} ParsesRedir(c: Cmd<string>, rest: seq<Token>)
    requires Legal(c) && (c.Exec? || c.Redir?) && Stops(rest)
    ensures ParseExec(RedirToks(c) + rest) == Ok(c, rest)
    decreases Size(c), 0
  {
    var d, rs := Core(c), RedirsOf(c);
    RedirToksAre(c);
    Rewrap(c);
    assert RedirToks(c) + rest == CoreToks(d) + (ArrowToks(rs) + rest);
    if d.Exec? {
      ParsesSimple(d.args, rs, rest);
    } else {
      ParsesParen(d, rs, rest);
    }
  }

  /** A parenthesised command with redirections. */
  lemma {:induction false} ParsesParen(d: Cmd<string>, rs: seq<(string, Mode)>, rest: seq<Token>)
    requires Legal(d) && !d.Exec? && !d.Redir? && Stops(rest)
    ensures ParseExec(Paren(LineToks(d)) + (ArrowToks(rs) + rest)) == Ok(Wrap(d, rs), rest)
    decreases Size(d), 2
  {
    var tail := ArrowToks(rs) + rest;
    var ts := Paren(LineToks(d)) + tail;
    assert ts[1..] == LineToks(d) + ([Sym(')')] + tail);
    ParsesLine(d, [Sym(')')] + tail);
    assert ([Sym(')')] + tail)[1..] == tail;
    ParsesArrows(rs, rest);
  }

  lemma {:induction false} ParsesExec(c: Cmd<string>, rest: seq<Token>)
    requires Legal(c) && Stops(rest)
    ensures ParseExec(ExecToks(c) + rest) == Ok(c, rest)
    decreases Size(c), 3
  {
    if c.Exec? || c.Redir? {
      ParsesRedir(c, rest);
    } else {
      ParsesParen(c, [], rest);
      assert ArrowToks([]) + rest == rest;
    }
  }

  lemma {:induction false} ParsesPipe(c: Cmd<string>, rest: seq<Token>)
    requires Legal(c) && Stops(rest) && !Starts(rest, '|')
    ensures ParsePipe(PipeToks(c) + rest) == Ok(c, rest)
    decreases Size(c), 4
  {
    if c.Pipe? {
      var tail := [Sym('|')] + (PipeToks(c.right) + rest);
      assert PipeToks(c) + rest == ExecToks(c.left) + tail;
      ParsesExec(c.left, tail);
      assert tail[1..] == PipeToks(c.right) + rest;
      ParsesPipe(c.right, rest);
    } else {
      ParsesExec(c, rest);
    }
  }

  /** A command with its ampersands: what parseline has after its loop. */
  lemma {:induction false} ParsesBack(c: Cmd<string>, rest: seq<Token>)
    requires Legal(c) && Stops(rest) && !Starts(rest, '|')
    ensures var r := ParsePipe(BackToks(c) + rest); r.Ok? && Backs(r.cmd, r.rest) == Backs(c, rest)
    decreases Size(c), 5
  {
    if c.Back? {
      var tail := [Sym('&')] + rest;
      assert BackToks(c) + rest == BackToks(c.cmd) + tail;
      ParsesBack(c.cmd, tail);
      assert tail[1..] == rest;
    } else {
      ParsesPipe(c, rest);
    }
  }

  lemma {:induction false} ParsesLine(c: Cmd<string>, rest: seq<Token>)
    requires Legal(c) && (rest == [] || Starts(rest, ')'))
    ensures ParseLine(LineToks(c) + rest) == Ok(c, rest)
    decreases Size(c), 1
  {
    var ts := LineToks(c) + rest;
    match c
    case List(l, r) =>
      var tail := [Sym(';')] + (LineToks(r) + rest);
      assert ts == BackToks(l) + tail;
      ParsesBack(l, tail);
      assert tail[1..] == LineToks(r) + rest;
      ParsesLine(r, rest);
    case Back(d) =>
      var tail := [Sym('&')] + rest;
      assert ts == BackToks(d) + tail;
      ParsesBack(d, tail);
      assert tail[1..] == rest;
    case Pipe(l, r) =>
      var tail := [Sym('|')] + (PipeToks(r) + rest);
      assert ts == ExecToks(l) + tail;
      ParsesExec(l, tail);
      assert tail[1..] == PipeToks(r) + rest;
      ParsesPipe(r, rest);
    case Exec(args) => ParsesRedir(c, rest);
    case Redir(d, file, mode) => ParsesRedir(c, rest);
  }

  // ---- the printed line

  predicate TokOk(t: Token) {
    match t
    case Sym(c) => c == '|' || c == '&' || c == ';' || c == '(' || c == ')'
    case Arrow(mode) => true
    case Word(w) => LegalWord(w)
  }

  predicate ToksOk(ts: seq<Token>) { forall i :: 0 <= i < |ts| ==> TokOk(ts[i]) }

  function Text(t: Token): (s: string) {
    match t
    case Sym(c) => [c]
    case Arrow(In) => "<"
    case Arrow(Out) => ">"
    case Arrow(App) => ">>"
    case Word(w) => w
  }

  function Render(ts: seq<Token>): (s: string) {
    if ts == [] then "" else Text(ts[0]) + (" " + Render(ts[1..]))
  }

  /** The line for a command. */
  function Print(c: Cmd<string>): (s: string) { Render(LineToks(c)) }

  lemma WordLenIs(s: string, n: nat)
    requires n < |s| && (forall i :: 0 <= i < n ==> WordChar(s[i])) && !WordChar(s[n])
    ensures WordLen(s) == n
  {
  }

  lemma LexText(t: Token, rest: string)
    requires TokOk(t)
    ensures Lex(Text(t) + (" " + rest)) == [t] + Lex(rest)
  {
    var s := Text(t) + (" " + rest);
    var n := |Text(t)|;
    assert s[n..] == " " + rest;
    assert (" " + rest)[1..] == rest;
    assert Lex(s[n..]) == Lex(rest);
    if t.Word? {
      WordLenIs(s, n);
      assert s[..n] == t.w;
    } else {
      assert s[0] == Text(t)[0];
    }
  }

  lemma {:induction false} LexRender(ts: seq<Token>)
    requires ToksOk(ts)
    ensures Lex(Render(ts)) == ts
  {
    if ts != [] {
      LexText(ts[0], Render(ts[1..]));
      LexRender(ts[1..]);
    }
  }

  lemma {:induction false} RedirToksOk(c: Cmd<string>)
    requires Legal(c) && (c.Exec? || c.Redir?)
    ensures ToksOk(RedirToks(c))
    decreases Size(c), 0
  {
    if c.Redir? {
      if c.cmd.Exec? || c.cmd.Redir? { RedirToksOk(c.cmd); } else { LineToksOk(c.cmd); }
    }
  }

  lemma {:induction false} ExecToksOk(c: Cmd<string>)
    requires Legal(c)
    ensures ToksOk(ExecToks(c))
    decreases Size(c), 2
  {
    if c.Exec? || c.Redir? { RedirToksOk(c); } else { LineToksOk(c); }
  }

  lemma {:induction false} PipeToksOk(c: Cmd<string>)
    requires Legal(c)
    ensures ToksOk(PipeToks(c))
    decreases Size(c), 3
  {
    if c.Pipe? {
      ExecToksOk(c.left);
      PipeToksOk(c.right);
    } else {
      ExecToksOk(c);
    }
  }

  lemma {:induction false} BackToksOk(c: Cmd<string>)
    requires Legal(c)
    ensures ToksOk(BackToks(c))
    decreases Size(c), 4
  {
    if c.Back? { BackToksOk(c.cmd); } else { PipeToksOk(c); }
  }

  lemma {:induction false} LineToksOk(c: Cmd<string>)
    requires Legal(c)
    ensures ToksOk(LineToks(c))
    decreases Size(c), 1
  {
    match c
    case List(l, r) => BackToksOk(l); LineToksOk(r);
    case Back(d) => BackToksOk(d);
    case Pipe(l, r) => ExecToksOk(l); PipeToksOk(r);
    case Exec(args) => RedirToksOk(c);
    case Redir(d, file, mode) => RedirToksOk(c);
  }

  /** Parsing the printed form of a command gives the command. */
  lemma RoundTrip(c: Cmd<string>)
    requires Legal(c)
    ensures ParseCmd(Lex(Print(c))) == Some(c)
  {
    LineToksOk(c);
    LexRender(LineToks(c));
    ParsesLine(c, []);
    assert LineToks(c) + [] == LineToks(c);
  }

  // ---- printing what was parsed

  /** The line as strlen sees it: no NUL inside. */
  predicate LineOk(s: string) { forall i :: 0 <= i < |s| ==> s[i] != '\0' }

  lemma {:induction false} LexOk(s: string)
    requires LineOk(s)
    ensures ToksOk(Lex(s))
    decreases |s|
  {
    if s != [] {
      var n := if WordChar(s[0]) then WordLen(s) else if s[0] == '>' && |s| > 1 && s[1] == '>' then 2 else 1;
      LexOk(s[n..]);
    }
  }

  predicate RedirsOk(rs: seq<(string, Mode)>) { forall i :: 0 <= i < |rs| ==> LegalWord(rs[i].0) }

  lemma {:induction false} RedirsLegal(ts: seq<Token>)
    requires ToksOk(ts)
    ensures var r := ParseRedirs(ts); r.Redirs? ==> RedirsOk(r.rs) && ToksOk(r.rest)
  {
    if ts != [] && ts[0].Arrow? && |ts| >= 2 && ts[1].Word? {
      assert TokOk(ts[1]);
      RedirsLegal(ts[2..]);
    }
  }

  lemma {:induction false} WrapLegal(cmd: Cmd<string>, rs: seq<(string, Mode)>)
    requires Legal(cmd) && RedirsOk(rs)
    ensures Legal(Wrap(cmd, rs))
    decreases |rs|
  {
    if rs != [] { WrapLegal(cmd, rs[..|rs| - 1]); }
  }

  predicate Fine(r: Result) { r.Ok? ==> Legal(r.cmd) && ToksOk(r.rest) }

  lemma {:induction false} ArgsLegal(ts: seq<Token>, args: seq<string>, rs: seq<(string, Mode)>)
    requires ToksOk(ts) && RedirsOk(rs) && Legal(Exec(args))
    ensures Fine(ParseArgs(ts, args, rs))
    decreases |ts|
  {
    if Stops(ts) {
      WrapLegal(Exec(args), rs);
    } else if ts[0].Word? && |args| + 1 < MAXARGS {
      RedirsLegal(ts[1..]);
      var r := ParseRedirs(ts[1..]);
      if r.Redirs? {
        assert TokOk(ts[0]);
        ArgsLegal(r.rest, args + [ts[0].w], rs + r.rs);
      }
    }
  }

  lemma {:induction false} ExecLegal(ts: seq<Token>)
    requires ToksOk(ts)
    ensures Fine(ParseExec(ts))
    decreases |ts|, 0
  {
    if Starts(ts, '(') {
      LineLegal(ts[1..]);
      var r := ParseLine(ts[1..]);
      if r.Ok? && Starts(r.rest, ')') {
        RedirsLegal(r.rest[1..]);
        var rs := ParseRedirs(r.rest[1..]);
        if rs.Redirs? { WrapLegal(r.cmd, rs.rs); }
      }
    } else {
      RedirsLegal(ts);
      var rs := ParseRedirs(ts);
      if rs.Redirs? { ArgsLegal(rs.rest, [], rs.rs); }
    }
  }

  lemma {:induction false} PipeLegal(ts: seq<Token>)
    requires ToksOk(ts)
    ensures Fine(ParsePipe(ts))
    decreases |ts|, 1
  {
    ExecLegal(ts);
    var r := ParseExec(ts);
    if r.Ok? && Starts(r.rest, '|') { PipeLegal(r.rest[1..]); }
  }

  lemma {:induction false} BacksLegal(cmd: Cmd<string>, ts: seq<Token>)
    requires Legal(cmd) && ToksOk(ts)
    ensures var r := Backs(cmd, ts); Legal(r.0) && ToksOk(r.1)
    decreases |ts|
  {
    if Starts(ts, '&') { BacksLegal(Back(cmd), ts[1..]); }
  }

  lemma {:induction false} LineLegal(ts: seq<Token>)
    requires ToksOk(ts)
    ensures Fine(ParseLine(ts))
    decreases |ts|, 2
  {
    PipeLegal(ts);
    var r := ParsePipe(ts);
    if r.Ok? {
      BacksLegal(r.cmd, r.rest);
      var (cmd, rest) := Backs(r.cmd, r.rest);
      if Starts(rest, ';') { LineLegal(rest[1..]); }
    }
  }

  lemma {:induction false} RenderOk(ts: seq<Token>)
    requires ToksOk(ts)
    ensures LineOk(Render(ts))
  {
    if ts != [] {
      assert TokOk(ts[0]);
      assert LineOk(Text(ts[0])) && LineOk(" ");
      RenderOk(ts[1..]);
    }
  }

  /** Any parsed line: its command survives printing and parsing again. */
  lemma ParsedLegal(s: string)
    requires LineOk(s)
    ensures match ParseCmd(Lex(s))
            case None => true
            case Some(c) => Legal(c) && ParseCmd(Lex(Print(c))) == Some(c)
  {
    LexOk(s);
    LineLegal(Lex(s));
    match ParseCmd(Lex(s))
    case None =>
    case Some(c) => RoundTrip(c);
  }

  /** The commands that some line stands for are exactly the legal ones. */
  lemma Parseable(c: Cmd<string>)
    ensures Legal(c) <==> exists s :: LineOk(s) && ParseCmd(Lex(s)) == Some(c)
  {
    if Legal(c) {
      RoundTrip(c);
      LineToksOk(c);
      RenderOk(LineToks(c));
    }
    forall s | LineOk(s) && ParseCmd(Lex(s)) == Some(c)
      ensures Legal(c)
    {
      ParsedLegal(s);
    }
  }
}
