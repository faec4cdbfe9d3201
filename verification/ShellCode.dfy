/** gettoken, peek, the parse functions and nulterminate of user/sh.c, on the characters of a line. */
module ShellCode {
  import opened Collections
  import opened Shell
  import opened ShellGrammar

  /** A word in the line: from q up to eq. */
  datatype Span = Span(q: nat, eq: nat)

  /** Word characters, up to a character that is none. */
  predicate SpanOk(s: string, w: Span) {
    && w.q < w.eq <= |s|
    && (forall i :: w.q <= i < w.eq ==> WordChar(s[i]))
    && (w.eq < |s| ==> !WordChar(s[w.eq]))
  }

  predicate SpansOk(s: string, c: Cmd<Span>) {
    match c
    case Exec(args) => forall i :: 0 <= i < |args| ==> SpanOk(s, args[i])
    case Redir(d, file, mode) => SpansOk(s, d) && SpanOk(s, file)
    case Pipe(l, r) => SpansOk(s, l) && SpansOk(s, r)
    case List(l, r) => SpansOk(s, l) && SpansOk(s, r)
    case Back(d) => SpansOk(s, d)
  }

  function SpellWord(s: string, w: Span): (r: string) { if w.q <= w.eq <= |s| then s[w.q..w.eq] else "" }

  function SpellWords(s: string, ws: seq<Span>): (r: seq<string>)
    ensures |r| == |ws| && forall i :: 0 <= i < |ws| ==> r[i] == SpellWord(s, ws[i])
  {
    seq(|ws|, i requires 0 <= i < |ws| => SpellWord(s, ws[i]))
  }

  function SpellRedirs(s: string, rs: seq<(Span, Mode)>): (r: seq<(string, Mode)>)
    ensures |r| == |rs| && forall i :: 0 <= i < |rs| ==> r[i] == (SpellWord(s, rs[i].0), rs[i].1)
  {
    seq(|rs|, i requires 0 <= i < |rs| => (SpellWord(s, rs[i].0), rs[i].1))
  }

  /** The command with its words read off the line. */
  function Spell(s: string, c: Cmd<Span>): (r: Cmd<string>) {
    match c
    case Exec(args) => Exec(SpellWords(s, args))
    case Redir(d, file, mode) => Redir(Spell(s, d), SpellWord(s, file), mode)
    case Pipe(l, r) => Pipe(Spell(s, l), Spell(s, r))
    case List(l, r) => List(Spell(s, l), Spell(s, r))
    case Back(d) => Back(Spell(s, d))
  }

  /** The tokens from position i on. */
  function Toks(s: string, i: nat): (ts: seq<Token>)
    requires i <= |s|
  {
    Lex(s[i..])
  }

  // ---- what the characters say about the tokens

  lemma AtEnd(s: string)
    ensures Toks(s, |s|) == []
  {
  }

  lemma SkipWhite(s: string, i: nat)
    requires i < |s| && White(s[i])
    ensures Toks(s, i) == Toks(s, i + 1)
  {
    assert s[i..][1..] == s[i + 1..];
  }

  lemma OneChar(s: string, i: nat)
    requires i < |s| && Symbol(s[i]) && s[i] != '>'
    ensures Toks(s, i) == [if s[i] == '<' then Arrow(In) else Sym(s[i])] + Toks(s, i + 1)
  {
    assert s[i..][1..] == s[i + 1..];
  }

  lemma OneArrow(s: string, i: nat)
    requires i < |s| && s[i] == '>'
    ensures if i + 1 < |s| && s[i + 1] == '>' then Toks(s, i) == [Arrow(App)] + Toks(s, i + 2)
            else Toks(s, i) == [Arrow(Out)] + Toks(s, i + 1)
  {
    assert s[i..][1..] == s[i + 1..];
    if i + 1 < |s| {
      assert s[i..][1] == s[i + 1];
      assert s[i..][2..] == s[i + 2..];
    }
  }

  lemma WordLenAll(t: string)
    requires forall i :: 0 <= i < |t| ==> WordChar(t[i])
    ensures WordLen(t) == |t|
  {
  }

  lemma OneWord(s: string, i: nat, j: nat)
    requires i < j <= |s| && (forall k :: i <= k < j ==> WordChar(s[k])) && (j < |s| ==> !WordChar(s[j]))
    ensures Toks(s, i) == [Word(s[i..j])] + Toks(s, j)
  {
    var t := s[i..];
    forall k | 0 <= k < j - i ensures WordChar(t[k]) { assert t[k] == s[i + k]; }
    if j < |s| {
      assert t[j - i] == s[j];
      WordLenIs(t, j - i);
    } else {
      WordLenAll(t);
    }
    assert t[..j - i] == s[i..j] && t[j - i..] == s[j..];
  }

  /** What gettoken returns for a token. */
  function Code(t: Token): (c: char) {
    match t
    case Sym(c) => c
    case Arrow(In) => '<'
    case Arrow(Out) => '>'
    case Arrow(App) => '+'
    case Word(w) => 'a'
  }

  // ---- the code

  method Skip(s: string, i: nat) returns (j: nat)
    requires i <= |s|
    ensures i <= j <= |s| && Toks(s, j) == Toks(s, i) && (j < |s| ==> !White(s[j]))
  {
    hide Toks;
    j := i;
    while j < |s| && White(s[j])
      invariant i <= j <= |s| && Toks(s, j) == Toks(s, i)
    {
      SkipWhite(s, j);
      j := j + 1;
    }
  }

  /** gettoken: the next token, its place, and the position after it and the blanks behind it. */
  method GetToken(s: string, i: nat) returns (tok: char, w: Span, j: nat)
    requires LineOk(s) && i <= |s|
    ensures i <= j <= |s|
    ensures if Toks(s, i) == [] then tok == '\0' && Toks(s, j) == []
            else i < j && tok == Code(Toks(s, i)[0]) && tok != '\0' && Toks(s, j) == Toks(s, i)[1..]
    ensures Toks(s, i) != [] ==> (tok == 'a' <==> Toks(s, i)[0].Word?)
    ensures Toks(s, i) != [] && Toks(s, i)[0].Word? ==> SpanOk(s, w) && SpellWord(s, w) == Toks(s, i)[0].w
  {
    hide Toks;
    j := Skip(s, i);
    var q := j;
    if j == |s| {
      AtEnd(s);
      return '\0', Span(q, j), j;
    }
    tok := s[j];
    if s[j] == '|' || s[j] == '(' || s[j] == ')' || s[j] == ';' || s[j] == '&' || s[j] == '<' {
      OneChar(s, j);
      j := j + 1;
    } else if s[j] == '>' {
      OneArrow(s, j);
      j := j + 1;
      if j < |s| && s[j] == '>' {
        tok := '+';
        j := j + 1;
      }
    } else {
      tok := 'a';
      while j < |s| && !White(s[j]) && !Symbol(s[j])
        invariant q <= j <= |s| && forall k :: q <= k < j ==> WordChar(s[k])
      {
        j := j + 1;
      }
      OneWord(s, q, j);
    }
    w := Span(q, j);
    j := Skip(s, j);
  }

  /** peek: skip blanks, and tell whether the next character is one of toks. */
  method Peek(s: string, i: nat, toks: string) returns (r: bool, j: nat)
    requires i <= |s|
    ensures i <= j <= |s| && Toks(s, j) == Toks(s, i) && (j < |s| ==> !White(s[j]))
    ensures r <==> j < |s| && s[j] in toks
  {
    j := Skip(s, i);
    r := j < |s| && s[j] in toks;
  }

  /** A character that is not blank begins a token. */
  lemma FirstToken(s: string, j: nat)
    requires j <= |s| && (j < |s| ==> !White(s[j]))
    ensures j == |s| <==> Toks(s, j) == []
    ensures j < |s| ==> (Toks(s, j)[0].Arrow? <==> s[j] == '<' || s[j] == '>')
    ensures j < |s| ==> (Toks(s, j)[0].Word? <==> WordChar(s[j]))
    ensures j < |s| && Symbol(s[j]) && s[j] != '<' && s[j] != '>' ==> Toks(s, j)[0] == Sym(s[j])
  {
    if j == |s| { AtEnd(s); }
  }

  // ---- the parse functions; None stands for panic

  /** Redirections found before those still to come. */
  ghost function Prepend(rs: seq<(string, Mode)>, r: Redirs): (r': Redirs) {
    match r
    case NoFile => NoFile
    case Redirs(more, rest) => Redirs(rs + more, rest)
  }

  predicate RedirsOk(s: string, rs: seq<(Span, Mode)>) { forall i :: 0 <= i < |rs| ==> SpanOk(s, rs[i].0) }

  function ModeOf(tok: char): (m: Mode) { if tok == '<' then In else if tok == '>' then Out else App }

  lemma NotAWord(ts: seq<Token>)
    requires ts != [] && ts[0].Arrow? && (|ts| > 1 ==> !ts[1].Word?)
    ensures ParseRedirs(ts) == NoFile
  {
  }

  lemma IsAWord(ts: seq<Token>)
    requires |ts| > 1 && ts[0].Arrow? && ts[1].Word?
    ensures ModeOf(Code(ts[0])) == ts[0].mode
    ensures ParseRedirs(ts) == Prepend([(ts[1].w, ts[0].mode)], ParseRedirs(ts[1..][1..]))
  {
    assert ts[1..][1..] == ts[2..];
  }

  lemma MoreRedirs(s: string, rs: seq<(Span, Mode)>, x: (Span, Mode), r: Redirs)
    ensures Prepend(SpellRedirs(s, rs), Prepend([(SpellWord(s, x.0), x.1)], r)) == Prepend(SpellRedirs(s, rs + [x]), r)
  {
    assert SpellRedirs(s, rs + [x]) == SpellRedirs(s, rs) + [(SpellWord(s, x.0), x.1)];
    if r.Redirs? {
      assert SpellRedirs(s, rs) + ([(SpellWord(s, x.0), x.1)] + r.rs) == SpellRedirs(s, rs + [x]) + r.rs;
    }
  }

  /** parseredirs: the redirections at this point. */
  method ParseRedirsAt(s: string, i: nat) returns (r: Option<seq<(Span, Mode)>>, j: nat)
    requires LineOk(s) && i <= |s|
    ensures i <= j <= |s|
    ensures r.None? ==> ParseRedirs(Toks(s, i)) == NoFile
    ensures r.Some? ==> RedirsOk(s, r.value) && ParseRedirs(Toks(s, i)) == Redirs(SpellRedirs(s, r.value), Toks(s, j))
  {
    hide Toks;
    var rs: seq<(Span, Mode)> := [];
    j := i;
    var more;
    more, j := Peek(s, j, "<>");
    FirstToken(s, j);
    while more
      invariant i <= j <= |s| && RedirsOk(s, rs) && (more <==> Toks(s, j) != [] && Toks(s, j)[0].Arrow?)
      invariant ParseRedirs(Toks(s, i)) == Prepend(SpellRedirs(s, rs), ParseRedirs(Toks(s, j)))
      decreases |s| - j
    {
      ghost var ts := Toks(s, j);
      var tok, w0 := '\0', Span(0, 0);
      tok, w0, j := GetToken(s, j);
      var tok2, w := '\0', Span(0, 0);
      tok2, w, j := GetToken(s, j);
      if tok2 != 'a' { NotAWord(ts); return None, j; }
      IsAWord(ts);
      MoreRedirs(s, rs, (w, ModeOf(tok)), ParseRedirs(Toks(s, j)));
      rs := rs + [(w, ModeOf(tok))];
      more, j := Peek(s, j, "<>");
      FirstToken(s, j);
    }
    r := Some(rs);
  }

  /** A parse of the whole rest of the line: None where the parser on tokens fails. */
  ghost predicate Agrees(s: string, r: Option<Cmd<Span>>, j: nat, spec: Result) {
    && j <= |s|
    && match r
       case None => spec == Fail
       case Some(c) => SpansOk(s, c) && spec == Ok(Spell(s, c), Toks(s, j))
  }

  lemma {:induction false} SpellWrap(s: string, c: Cmd<Span>, rs: seq<(Span, Mode)>)
    requires SpansOk(s, c) && RedirsOk(s, rs)
    ensures Spell(s, Wrap(c, rs)) == Wrap(Spell(s, c), SpellRedirs(s, rs)) && SpansOk(s, Wrap(c, rs))
    decreases |rs|
  {
    if rs != [] {
      var rest := rs[..|rs| - 1];
      SpellWrap(s, c, rest);
      assert SpellRedirs(s, rs)[..|rs| - 1] == SpellRedirs(s, rest);
    }
  }

  predicate ArgsOk(s: string, args: seq<Span>) { forall i :: 0 <= i < |args| ==> SpanOk(s, args[i]) }

  lemma NoWords(s: string)
    ensures SpellWords(s, []) == []
  {
  }

  lemma OneMoreWord(s: string, args: seq<Span>, w: Span)
    ensures SpellWords(s, args + [w]) == SpellWords(s, args) + [SpellWord(s, w)]
  {
  }

  lemma MoreWritten(s: string, rs: seq<(Span, Mode)>, more: seq<(Span, Mode)>)
    ensures SpellRedirs(s, rs + more) == SpellRedirs(s, rs) + SpellRedirs(s, more)
  {
  }

  /** The loop of parseexec: words, each followed by redirections. */
  method ParseArgsAt(s: string, i: nat, rs0: seq<(Span, Mode)>) returns (r: Option<Cmd<Span>>, j: nat)
    requires LineOk(s) && i <= |s| && RedirsOk(s, rs0)
    ensures i <= j && Agrees(s, r, j, ParseArgs(Toks(s, i), [], SpellRedirs(s, rs0)))
  {
    hide Toks, SpellWords, SpellRedirs, SpanOk;
    var args: seq<Span>, rs := [], rs0;
    NoWords(s);
    var stop;
    stop, j := Peek(s, i, "|)&;");
    FirstToken(s, j);
    while !stop
      invariant i <= j <= |s| && RedirsOk(s, rs) && ArgsOk(s, args) && |args| < MAXARGS
      invariant stop ==> Stops(Toks(s, j))
      invariant !stop ==> Toks(s, j) == [] || !Stops(Toks(s, j))
      invariant ParseArgs(Toks(s, i), [], SpellRedirs(s, rs0)) ==
                ParseArgs(Toks(s, j), SpellWords(s, args), SpellRedirs(s, rs))
      decreases |s| - j
    {
      var tok, w := '\0', Span(0, 0);
      tok, w, j := GetToken(s, j);
      if tok == '\0' { break; }
      if tok != 'a' { return None, j; }
      if |args| + 1 >= MAXARGS { return None, j; }
      OneMoreWord(s, args, w);
      args := args + [w];
      var more;
      more, j := ParseRedirsAt(s, j);
      if more.None? { return None, j; }
      MoreWritten(s, rs, more.value);
      rs := rs + more.value;
      stop, j := Peek(s, j, "|)&;");
      FirstToken(s, j);
    }
    SpellWrap(s, Exec(args), rs);
    r := Some(Wrap(Exec(args), rs));
  }

  /** parseline */
  method ParseLineAt(s: string, i: nat) returns (r: Option<Cmd<Span>>, j: nat)
    requires LineOk(s) && i <= |s|
    ensures i <= j && Agrees(s, r, j, ParseLine(Toks(s, i)))
    decreases |s| - i, 3
  {
    hide Toks;
    r, j := ParsePipeAt(s, i);
    if r.None? { return; }
    var cmd := r.value;
    ghost var all := Backs(Spell(s, cmd), Toks(s, j));
    var more;
    more, j := Peek(s, j, "&");
    FirstToken(s, j);
    while more
      invariant i <= j <= |s| && SpansOk(s, cmd) && (more <==> Starts(Toks(s, j), '&'))
      invariant Backs(Spell(s, cmd), Toks(s, j)) == all
      decreases |s| - j
    {
      var tok, w := '\0', Span(0, 0);
      tok, w, j := GetToken(s, j);
      cmd := Back(cmd);
      more, j := Peek(s, j, "&");
      FirstToken(s, j);
    }
    more, j := Peek(s, j, ";");
    FirstToken(s, j);
    r := Some(cmd);
    if more {
      var tok, w := '\0', Span(0, 0);
      tok, w, j := GetToken(s, j);
      var right;
      right, j := ParseLineAt(s, j);
      if right.None? { return None, j; }
      r := Some(List(cmd, right.value));
    }
  }

  /** parseblock: a command in parentheses, and redirections. */
  method ParseBlockAt(s: string, i: nat) returns (r: Option<Cmd<Span>>, j: nat)
    requires LineOk(s) && i <= |s| && Starts(Toks(s, i), '(')
    ensures i <= j && Agrees(s, r, j, ParseExec(Toks(s, i)))
    decreases |s| - i, 0
  {
    hide Toks;
    var tok, w := '\0', Span(0, 0);
    tok, w, j := GetToken(s, i);
    var cmd;
    cmd, j := ParseLineAt(s, j);
    if cmd.None? { return None, j; }
    var close;
    close, j := Peek(s, j, ")");
    FirstToken(s, j);
    if !close { return None, j; }
    tok, w, j := GetToken(s, j);
    var rs;
    rs, j := ParseRedirsAt(s, j);
    if rs.None? { return None, j; }
    SpellWrap(s, cmd.value, rs.value);
    r := Some(Wrap(cmd.value, rs.value));
  }

  /** parseexec: a block, or words and redirections in any order. */
  method ParseExecAt(s: string, i: nat) returns (r: Option<Cmd<Span>>, j: nat)
    requires LineOk(s) && i <= |s|
    ensures i <= j && Agrees(s, r, j, ParseExec(Toks(s, i)))
    decreases |s| - i, 1
  {
    hide Toks;
    var block;
    block, j := Peek(s, i, "(");
    FirstToken(s, j);
    if block {
      r, j := ParseBlockAt(s, j);
      return;
    }
    var rs;
    rs, j := ParseRedirsAt(s, j);
    if rs.None? { return None, j; }
    r, j := ParseArgsAt(s, j, rs.value);
  }

  /** parsepipe */
  method ParsePipeAt(s: string, i: nat) returns (r: Option<Cmd<Span>>, j: nat)
    requires LineOk(s) && i <= |s|
    ensures i <= j && Agrees(s, r, j, ParsePipe(Toks(s, i)))
    decreases |s| - i, 2
  {
    hide Toks;
    r, j := ParseExecAt(s, i);
    if r.None? { return; }
    var more;
    more, j := Peek(s, j, "|");
    FirstToken(s, j);
    if more {
      var tok, w := '\0', Span(0, 0);
      tok, w, j := GetToken(s, j);
      var right;
      right, j := ParsePipeAt(s, j);
      if right.None? { return None, j; }
      r := Some(Pipe(r.value, right.value));
    }
  }

  /** parsecmd up to nulterminate: the command on the line, or a syntax error. */
  method ParseCommand(s: string) returns (r: Option<Cmd<Span>>)
    requires LineOk(s)
    ensures r.None? <==> ParseCmd(Lex(s)).None?
    ensures r.Some? ==> SpansOk(s, r.value) && ParseCmd(Lex(s)) == Some(Spell(s, r.value))
  {
    var j;
    r, j := ParseLineAt(s, 0);
    assert s[0..] == s;
    if r.None? { return; }
    var more;
    more, j := Peek(s, j, "");
    FirstToken(s, j);
    if j != |s| { return None; }
  }

  // ---- nulterminate

  /** The buffer still holds every word character of the line. */
  ghost predicate WordsKept(buf: seq<char>, s: string) {
    |buf| == |s| + 1 && buf[|s|] == '\0' && forall i :: 0 <= i < |s| && WordChar(s[i]) ==> buf[i] == s[i]
  }

  /** The end of a word is a NUL. */
  predicate Ended(buf: seq<char>, w: Span) { w.eq < |buf| && buf[w.eq] == '\0' }

  /** All words of a command are NUL-terminated. */
  predicate Terminated(buf: seq<char>, c: Cmd<Span>) {
    match c
    case Exec(args) => forall i :: 0 <= i < |args| ==> Ended(buf, args[i])
    case Redir(d, file, mode) => Terminated(buf, d) && Ended(buf, file)
    case Pipe(l, r) => Terminated(buf, l) && Terminated(buf, r)
    case List(l, r) => Terminated(buf, l) && Terminated(buf, r)
    case Back(d) => Terminated(buf, d)
  }

  /** NULs stay. */
  predicate NulsStay(buf: seq<char>, buf': seq<char>) {
    |buf'| == |buf| && forall i :: 0 <= i < |buf| && buf[i] == '\0' ==> buf'[i] == '\0'
  }

  lemma {:induction false} StaysTerminated(buf: seq<char>, buf': seq<char>, c: Cmd<Span>)
    requires Terminated(buf, c) && NulsStay(buf, buf')
    ensures Terminated(buf', c)
  {
    match c
    case Exec(args) =>
    case Redir(d, file, mode) => StaysTerminated(buf, buf', d);
    case Pipe(l, r) => StaysTerminated(buf, buf', l); StaysTerminated(buf, buf', r);
    case List(l, r) => StaysTerminated(buf, buf', l); StaysTerminated(buf, buf', r);
    case Back(d) => StaysTerminated(buf, buf', d);
  }

  /** nulterminate: a NUL behind every word of the command; no word changes. */
  method NulTerminate(buf: array<char>, s: string, c: Cmd<Span>)
    requires WordsKept(buf[..], s) && SpansOk(s, c)
    modifies buf
    ensures WordsKept(buf[..], s) && Terminated(buf[..], c) && NulsStay(old(buf[..]), buf[..])
    decreases c
  {
    match c
    case Exec(args) =>
      var i := 0;
      while i < |args|
        invariant 0 <= i <= |args| && WordsKept(buf[..], s) && NulsStay(old(buf[..]), buf[..])
        invariant forall k :: 0 <= k < i ==> Ended(buf[..], args[k])
      {
        assert SpanOk(s, args[i]);
        buf[args[i].eq] := '\0';
        i := i + 1;
      }
    case Redir(d, file, mode) =>
      NulTerminate(buf, s, d);
      ghost var before := buf[..];
      buf[file.eq] := '\0';
      StaysTerminated(before, buf[..], d);
    case Pipe(l, r) =>
      NulTerminate(buf, s, l);
      ghost var before := buf[..];
      NulTerminate(buf, s, r);
      StaysTerminated(before, buf[..], l);
    case List(l, r) =>
      NulTerminate(buf, s, l);
      ghost var before := buf[..];
      NulTerminate(buf, s, r);
      StaysTerminated(before, buf[..], l);
    case Back(d) =>
      NulTerminate(buf, s, d);
  }

  /** The C string that starts at q. */
  ghost function CStringAt(buf: seq<char>, q: nat): (w: string)
    decreases |buf| - q
  {
    if q >= |buf| || buf[q] == '\0' then "" else [buf[q]] + CStringAt(buf, q + 1)
  }

  /** The command with its words read as C strings. */
  ghost function Read(buf: seq<char>, c: Cmd<Span>): (r: Cmd<string>) {
    match c
    case Exec(args) => Exec(seq(|args|, i requires 0 <= i < |args| => CStringAt(buf, args[i].q)))
    case Redir(d, file, mode) => Redir(Read(buf, d), CStringAt(buf, file.q), mode)
    case Pipe(l, r) => Pipe(Read(buf, l), Read(buf, r))
    case List(l, r) => List(Read(buf, l), Read(buf, r))
    case Back(d) => Back(Read(buf, d))
  }

  lemma {:induction false} ReadsWord(buf: seq<char>, s: string, q: nat, eq: nat)
    requires LineOk(s) && WordsKept(buf, s) && q <= eq <= |s| && buf[eq] == '\0'
    requires forall i :: q <= i < eq ==> WordChar(s[i])
    ensures CStringAt(buf, q) == s[q..eq]
    decreases eq - q
  {
    if q < eq {
      ReadsWord(buf, s, q + 1, eq);
      assert s[q..eq] == [s[q]] + s[q + 1..eq];
    }
  }

  /** After nulterminate every stored word is its token. */
  lemma {:induction false} ReadsAll(buf: seq<char>, s: string, c: Cmd<Span>)
    requires LineOk(s) && WordsKept(buf, s) && SpansOk(s, c) && Terminated(buf, c)
    ensures Read(buf, c) == Spell(s, c)
  {
    match c
    case Exec(args) =>
      forall i | 0 <= i < |args| ensures CStringAt(buf, args[i].q) == SpellWord(s, args[i]) {
        assert SpanOk(s, args[i]) && Ended(buf, args[i]);
        ReadsWord(buf, s, args[i].q, args[i].eq);
      }
      assert Read(buf, c).args == SpellWords(s, args);
    case Redir(d, file, mode) =>
      ReadsAll(buf, s, d);
      ReadsWord(buf, s, file.q, file.eq);
    case Pipe(l, r) => ReadsAll(buf, s, l); ReadsAll(buf, s, r);
    case List(l, r) => ReadsAll(buf, s, l); ReadsAll(buf, s, r);
    case Back(d) => ReadsAll(buf, s, d);
  }

  /** parsecmd on a line buffer: the command, with its words read as C strings from the buffer it has
      changed, is the one the grammar gives the line, and a syntax error means that it gives none; on the
      printed form of a command it gives the command, and every command it gives has a printed form. */
  method ParseBuffer(buf: array<char>) returns (r: Option<Cmd<Span>>)
    requires buf.Length >= 1 && buf[buf.Length - 1] == '\0' && LineOk(buf[..buf.Length - 1])
    modifies buf
    ensures var line := old(buf[..buf.Length - 1]);
            && (r.None? <==> ParseCmd(Lex(line)).None?)
            && (r.Some? ==> Spelled(line, Lex(line)) && IsLine(Lex(line), Read(buf[..], r.value)))
            && (r.None? ==> forall ts, c :: Spelled(line, ts) ==> !IsLine(ts, c))
            && (r.Some? ==> ParseCmd(Lex(line)) == Some(Read(buf[..], r.value)))
            && (r.Some? ==> Legal(Read(buf[..], r.value)))
            && forall c :: Legal(c) && line == Print(c) ==> r.Some? && Read(buf[..], r.value) == c
  {
    ghost var line := buf[..buf.Length - 1];
    var s := buf[..buf.Length - 1];
    r := ParseCommand(s);
    if r.Some? {
      NulTerminate(buf, s, r.value);
      ReadsAll(buf[..], s, r.value);
      ParsedLegal(s);
      LexerIsSpelling(s, Lex(s));
      ParserIsGrammar(Lex(s), Read(buf[..], r.value));
    } else {
      forall ts, c | Spelled(line, ts) ensures !IsLine(ts, c) {
        LexerIsSpelling(s, ts);
        ParserIsGrammar(ts, c);
      }
    }
    forall c | Legal(c) && line == Print(c) ensures r.Some? && Read(buf[..], r.value) == c {
      RoundTrip(c);
    }
  }
}
