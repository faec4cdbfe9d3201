/** What lines of user/sh.c mean: the tokens a line is spelled with, and the grammar of commands. The lexer and
    the parser of Shell are exactly these. */
module ShellGrammar {
  import opened Collections
  import opened Shell

  // ---- words and redirections in any order

  predicate IsItem(ts: seq<Token>, k: nat)
    requires k < |ts|
  {
    ts[k].Word? || (ts[k].Arrow? && k + 1 < |ts| && ts[k + 1].Word?)
  }

  /** Words, and arrows each followed by a word. */
  predicate Items(ts: seq<Token>) { forall k :: 0 <= k < |ts| ==> IsItem(ts, k) }

  predicate AfterArrow(ts: seq<Token>, k: nat) { 0 < k <= |ts| && ts[k - 1].Arrow? }

  /** The words that do not follow an arrow. */
  function WordsIn(ts: seq<Token>): (args: seq<string>) {
    if ts == [] then []
    else
      var m := |ts| - 1;
      WordsIn(ts[..m]) + if ts[m].Word? && !AfterArrow(ts, m) then [ts[m].w] else []
  }

  /** The words that do, each with its arrow. */
  function RedirsIn(ts: seq<Token>): (rs: seq<(string, Mode)>) {
    if ts == [] then []
    else
      var m := |ts| - 1;
      RedirsIn(ts[..m]) + if ts[m].Word? && AfterArrow(ts, m) then [(ts[m].w, ts[m - 1].mode)] else []
  }

  /** How many tokens there are before the end of an exec command. */
  function ExecLen(ts: seq<Token>): (n: nat)
    ensures n <= |ts| && Stops(ts[n..]) && forall k :: 0 <= k < n ==> !Stops(ts[k..])
  {
    if Stops(ts) then 0
    else
      var n := ExecLen(ts[1..]);
      assert ts[1..][n..] == ts[n + 1..];
      assert forall k :: 1 <= k < n + 1 ==> ts[k..] == ts[1..][k - 1..];
      n + 1
  }

  /** The exec command of these tokens: the words as arguments, in order, with the redirections around
      them, in order. */
  function SimpleCmd(ts: seq<Token>): (c: Option<Cmd<string>>) {
    if Items(ts) && |WordsIn(ts)| < MAXARGS then Some(Wrap(Exec(WordsIn(ts)), RedirsIn(ts))) else None
  }

  lemma InNext(ts: seq<Token>, k: nat)
    requires k < |ts|
    ensures WordsIn(ts[..k + 1]) == WordsIn(ts[..k]) + if ts[k].Word? && !AfterArrow(ts, k) then [ts[k].w] else []
    ensures RedirsIn(ts[..k + 1]) ==
            RedirsIn(ts[..k]) + if ts[k].Word? && AfterArrow(ts, k) then [(ts[k].w, ts[k - 1].mode)] else []
  {
    assert ts[..k + 1][..k] == ts[..k];
  }

  /** The number of words only grows. */
  lemma {:induction false} WordsGrow(ts: seq<Token>, k: nat, n: nat)
    requires k <= n <= |ts|
    ensures |WordsIn(ts[..k])| <= |WordsIn(ts[..n])|
    decreases n - k
  {
    if k < n {
      WordsGrow(ts, k, n - 1);
      InNext(ts, n - 1);
    }
  }

  lemma ItemsMore(a: seq<Token>, b: seq<Token>)
    requires Items(a) && Items(b)
    ensures Items(a + b)
  {
    forall k | 0 <= k < |a + b| ensures IsItem(a + b, k) {
      assert if k < |a| then IsItem(a, k) else IsItem(b, k - |a|);
    }
  }

  /** One more word. */
  lemma WordNext(ts: seq<Token>, k: nat)
    requires k < |ts| && ts[k].Word? && !AfterArrow(ts, k) && Items(ts[..k])
    ensures Items(ts[..k + 1]) && !AfterArrow(ts, k + 1)
    ensures WordsIn(ts[..k + 1]) == WordsIn(ts[..k]) + [ts[k].w] && RedirsIn(ts[..k + 1]) == RedirsIn(ts[..k])
  {
    InNext(ts, k);
    ItemsMore(ts[..k], [ts[k]]);
    assert ts[..k + 1] == ts[..k] + [ts[k]];
    hide WordsIn, RedirsIn;
  }

  /** One more redirection. */
  lemma RedirNext(ts: seq<Token>, k: nat)
    requires k + 1 < |ts| && ts[k].Arrow? && ts[k + 1].Word? && Items(ts[..k])
    ensures Items(ts[..k + 2]) && !AfterArrow(ts, k + 2) && WordsIn(ts[..k + 2]) == WordsIn(ts[..k])
    ensures RedirsIn(ts[..k + 2]) == RedirsIn(ts[..k]) + [(ts[k + 1].w, ts[k].mode)]
  {
    InNext(ts, k);
    InNext(ts, k + 1);
    ItemsMore(ts[..k], [ts[k], ts[k + 1]]);
    assert ts[..k + 2] == ts[..k] + [ts[k], ts[k + 1]];
    hide WordsIn, RedirsIn;
  }

  /** An arrow without a word. */
  lemma NotItems(ts: seq<Token>, k: nat, n: nat)
    requires k < n <= |ts| && !ts[k].Word? && (ts[k].Arrow? && k + 1 < |ts| ==> !ts[k + 1].Word?)
    ensures !Items(ts[..n])
  {
    assert !IsItem(ts[..n], k);
  }

  lemma InExec(ts: seq<Token>, k: nat)
    requires k < |ts| && k <= ExecLen(ts) && !ts[k].Sym?
    ensures k < ExecLen(ts)
  {
    assert ts[k..][0] == ts[k];
    assert Stops(ts[ExecLen(ts)..]);
  }

  lemma RedirsAt(ts: seq<Token>, k: nat)
    requires k <= |ts|
    ensures ParseRedirs(ts[k..]) ==
            if k == |ts| || !ts[k].Arrow? then Redirs([], ts[k..])
            else if k + 1 == |ts| || !ts[k + 1].Word? then NoFile
            else
              var more := ParseRedirs(ts[k + 2..]);
              if more.NoFile? then NoFile else Redirs([(ts[k + 1].w, ts[k].mode)] + more.rs, more.rest)
  {
    if k < |ts| {
      assert ts[k..][0] == ts[k];
      if k + 1 < |ts| { assert ts[k..][1] == ts[k + 1] && ts[k..][2..] == ts[k + 2..]; }
    }
  }

  /** parseredirs takes the arrows and words from k on, up to the next word of the command, or finds an arrow
      without a word. */
  lemma {:induction false} RedirsFrom(ts: seq<Token>, k: nat) returns (k': nat)
    requires k <= ExecLen(ts) && !AfterArrow(ts, k) && Items(ts[..k])
    ensures k <= k' <= ExecLen(ts) && !AfterArrow(ts, k') && WordsIn(ts[..k']) == WordsIn(ts[..k])
    ensures match ParseRedirs(ts[k..])
            case NoFile => !Items(ts[..ExecLen(ts)])
            case Redirs(rs, rest) =>
              && rest == ts[k'..] && RedirsIn(ts[..k']) == RedirsIn(ts[..k]) + rs
              && Items(ts[..k']) && (k' < |ts| ==> !ts[k'].Arrow?)
    decreases |ts| - k
  {
    hide WordsIn, RedirsIn, Items, ExecLen, ParseRedirs, AfterArrow;
    k' := k;
    RedirsAt(ts, k);
    if k < |ts| && ts[k].Arrow? {
      InExec(ts, k);
      if k + 1 < |ts| && ts[k + 1].Word? {
        InExec(ts, k + 1);
        RedirNext(ts, k);
        k' := RedirsFrom(ts, k + 2);
      } else {
        NotItems(ts, k, ExecLen(ts));
      }
    }
  }

  lemma ArgsAt(ts: seq<Token>, k: nat, args: seq<string>, rs: seq<(string, Mode)>)
    requires k < ExecLen(ts)
    ensures var more := ParseRedirs(ts[k + 1..]);
            ParseArgs(ts[k..], args, rs) ==
            if !ts[k].Word? || |args| + 1 >= MAXARGS || more.NoFile? then Fail
            else ParseArgs(more.rest, args + [ts[k].w], rs + more.rs)
  {
    assert ts[k..][0] == ts[k] && ts[k..][1..] == ts[k + 1..] && !Stops(ts[k..]);
  }

  function Parsed(ts: seq<Token>): (r: Result) {
    var n := ExecLen(ts);
    match SimpleCmd(ts[..n]) case None => Fail case Some(c) => Ok(c, ts[n..])
  }

  /** The loop of parseexec from token k on. */
  lemma {:induction false} ArgsFrom(ts: seq<Token>, k: nat)
    requires k <= ExecLen(ts) && !AfterArrow(ts, k) && (k < |ts| ==> !ts[k].Arrow?)
    requires |WordsIn(ts[..k])| < MAXARGS && Items(ts[..k])
    ensures ParseArgs(ts[k..], WordsIn(ts[..k]), RedirsIn(ts[..k])) == Parsed(ts)
    decreases |ts| - k
  {
    var n := ExecLen(ts);
    if k == n {
      hide WordsIn, RedirsIn, Items, ExecLen;
    } else {
      hide WordsIn, RedirsIn, Items, ExecLen, ParseArgs, ParseRedirs, AfterArrow, Wrap;
      ArgsAt(ts, k, WordsIn(ts[..k]), RedirsIn(ts[..k]));
      if !ts[k].Word? {
        NotItems(ts, k, n);
      } else {
        WordNext(ts, k);
        WordsGrow(ts, k + 1, n);
        var k' := RedirsFrom(ts, k + 1);
        if ParseRedirs(ts[k + 1..]).Redirs? && |WordsIn(ts[..k])| + 1 < MAXARGS {
          ArgsFrom(ts, k');
        }
      }
    }
  }

  lemma NotParsed(ts: seq<Token>)
    requires !Items(ts[..ExecLen(ts)])
    ensures Parsed(ts) == Fail
  {
  }

  /** parseexec on a command without parentheses: words and redirections in any order, or a panic exactly for
      an arrow without a word, another token, or too many words. */
  lemma SimpleExec(ts: seq<Token>)
    requires !Starts(ts, '(')
    ensures ParseExec(ts) == Parsed(ts)
  {
    hide ExecLen, ParseArgs, ParseRedirs, ParseLine, Parsed;
    assert ts[..0] == [] && ts[0..] == ts;
    var k := RedirsFrom(ts, 0);
    if ParseRedirs(ts).Redirs? {
      assert RedirsIn([]) + ParseRedirs(ts).rs == ParseRedirs(ts).rs;
      ArgsFrom(ts, k);
    } else {
      NotParsed(ts);
    }
  }

  // ---- the grammar

  /** Redirections only. */
  predicate Arrows(ts: seq<Token>) { Items(ts) && WordsIn(ts) == [] }

  /** exec: words and redirections, or a line in parentheses and redirections. */
  ghost predicate IsExec(ts: seq<Token>, c: Cmd<string>)
    decreases |ts|, 0
  {
    || SimpleCmd(ts) == Some(c)
    || (Starts(ts, '(')
        && exists k, d :: 1 <= k < |ts| && ts[k] == Sym(')') && IsLine(ts[1..k], d) && Arrows(ts[k + 1..])
             && c == Wrap(d, RedirsIn(ts[k + 1..])))
  }

  /** pipe: exec, or exec | pipe. */
  ghost predicate IsPipe(ts: seq<Token>, c: Cmd<string>)
    decreases |ts|, 1
  {
    || IsExec(ts, c)
    || (c.Pipe?
        && exists k :: 0 <= k < |ts| && ts[k] == Sym('|') && IsExec(ts[..k], c.left) && IsPipe(ts[k + 1..], c.right))
  }

  /** back: pipe, or back &. */
  ghost predicate IsBack(ts: seq<Token>, c: Cmd<string>)
    decreases |ts|, 2
  {
    || IsPipe(ts, c)
    || (c.Back? && ts != [] && ts[|ts| - 1] == Sym('&') && IsBack(ts[..|ts| - 1], c.cmd))
  }

  /** line: back, or back ; line. */
  ghost predicate IsLine(ts: seq<Token>, c: Cmd<string>)
    decreases |ts|, 3
  {
    || IsBack(ts, c)
    || (c.List?
        && exists k :: 0 <= k < |ts| && ts[k] == Sym(';') && IsBack(ts[..k], c.left) && IsLine(ts[k + 1..], c.right))
  }

  // ---- the parser accepts the grammar

  lemma {:induction false} ArrowsParse(ts: seq<Token>, k: nat, rest: seq<Token>)
    requires Items(ts) && WordsIn(ts) == [] && k <= |ts| && !AfterArrow(ts, k) && Stops(rest)
    ensures var r := ParseRedirs(ts[k..] + rest);
            r.Redirs? && r.rest == rest && RedirsIn(ts) == RedirsIn(ts[..k]) + r.rs
    decreases |ts| - k
  {
    hide WordsIn, RedirsIn;
    assert ts[..|ts|] == ts;
    var all := ts[k..] + rest;
    if k == |ts| {
      assert all == rest && ts[..k] == ts;
    } else {
      assert all[0] == ts[k] && IsItem(ts, k);
      if ts[k].Word? {
        InNext(ts, k);
        WordsGrow(ts, k + 1, |ts|);
        assert false;
      }
      assert all[1] == ts[k + 1] && all[2..] == ts[k + 2..] + rest;
      InNext(ts, k);
      InNext(ts, k + 1);
      ArrowsParse(ts, k + 2, rest);
    }
  }

  lemma ItemsStop(ts: seq<Token>, rest: seq<Token>)
    requires Items(ts) && Stops(rest)
    ensures ExecLen(ts + rest) == |ts| && !Starts(ts + rest, '(')
  {
    var all := ts + rest;
    assert all[|ts|..] == rest;
    forall k | 0 <= k < |ts| ensures !Stops(all[k..]) {
      assert IsItem(ts, k) && all[k..][0] == ts[k];
    }
    if ts != [] { assert IsItem(ts, 0) && all[0] == ts[0]; }
  }

  lemma ArrowsAccepted(ts: seq<Token>, rest: seq<Token>)
    requires Arrows(ts) && Stops(rest)
    ensures ParseRedirs(ts + rest) == Redirs(RedirsIn(ts), rest)
  {
    ArrowsParse(ts, 0, rest);
    assert ts[..0] == [] && ts[0..] == ts;
    hide Items, WordsIn, ParseRedirs;
  }

  /** A line cut at token k. */
  lemma Cut(ts: seq<Token>, k: nat, rest: seq<Token>) returns (tail: seq<Token>)
    requires k < |ts|
    ensures tail == [ts[k]] + (ts[k + 1..] + rest) && ts + rest == ts[..k] + tail && tail[1..] == ts[k + 1..] + rest
  {
    tail := [ts[k]] + (ts[k + 1..] + rest);
  }

  lemma PipeOn(ts: seq<Token>, l: Cmd<string>, tail: seq<Token>, r: Cmd<string>, rest: seq<Token>)
    requires ParseExec(ts) == Ok(l, tail) && Starts(tail, '|') && ParsePipe(tail[1..]) == Ok(r, rest)
    ensures ParsePipe(ts) == Ok(Pipe(l, r), rest)
  {
    hide ParseExec;
  }

  lemma {:induction false} ExecAccepted(ts: seq<Token>, c: Cmd<string>, rest: seq<Token>)
    requires IsExec(ts, c) && Stops(rest)
    ensures ParseExec(ts + rest) == Ok(c, rest)
    decreases |ts|, 0
  {
    hide Items, WordsIn, RedirsIn, ExecLen, ParseRedirs, ParseLine, IsLine;
    var all := ts + rest;
    if SimpleCmd(ts) == Some(c) {
      ItemsStop(ts, rest);
      SimpleExec(all);
      assert all[..|ts|] == ts && all[|ts|..] == rest;
    } else {
      var k, d :| 1 <= k < |ts| && ts[k] == Sym(')') && IsLine(ts[1..k], d) && Arrows(ts[k + 1..])
                  && c == Wrap(d, RedirsIn(ts[k + 1..]));
      var tail := ts[k..] + rest;
      assert all[0] == ts[0] && all[1..] == ts[1..k] + tail && tail[0] == Sym(')');
      LineAccepted(ts[1..k], d, tail);
      var arrows := ts[k + 1..];
      assert tail[1..] == arrows + rest;
      ArrowsAccepted(arrows, rest);
    }
  }

  lemma {:induction false} PipeAccepted(ts: seq<Token>, c: Cmd<string>, rest: seq<Token>)
    requires IsPipe(ts, c) && Stops(rest) && !Starts(rest, '|')
    ensures ParsePipe(ts + rest) == Ok(c, rest)
    decreases |ts|, 1
  {
    hide ParseExec, IsExec;
    if IsExec(ts, c) {
      ExecAccepted(ts, c, rest);
    } else {
      var k :| 0 <= k < |ts| && ts[k] == Sym('|') && IsExec(ts[..k], c.left) && IsPipe(ts[k + 1..], c.right);
      hide ParsePipe, IsPipe;
      var tail := Cut(ts, k, rest);
      ExecAccepted(ts[..k], c.left, tail);
      PipeAccepted(ts[k + 1..], c.right, rest);
      PipeOn(ts + rest, c.left, tail, c.right, rest);
    }
  }

  /** What parseline has after its loop. */
  lemma {:induction false} BackAccepted(ts: seq<Token>, c: Cmd<string>, rest: seq<Token>)
    requires IsBack(ts, c) && Stops(rest) && !Starts(rest, '|')
    ensures var r := ParsePipe(ts + rest); r.Ok? && Backs(r.cmd, r.rest) == Backs(c, rest)
    decreases |ts|, 2
  {
    hide ParsePipe, IsPipe;
    if IsPipe(ts, c) {
      PipeAccepted(ts, c, rest);
    } else {
      var m := |ts| - 1;
      var tail := [Sym('&')] + rest;
      assert ts + rest == ts[..m] + tail;
      BackAccepted(ts[..m], c.cmd, tail);
      assert tail[1..] == rest;
    }
  }

  lemma LineOn(ts: seq<Token>, l: Cmd<string>, tail: seq<Token>, r: Cmd<string>, rest: seq<Token>)
    requires var p := ParsePipe(ts); p.Ok? && Backs(p.cmd, p.rest) == (l, tail)
    requires Starts(tail, ';') && ParseLine(tail[1..]) == Ok(r, rest)
    ensures ParseLine(ts) == Ok(List(l, r), rest)
  {
    hide ParsePipe;
  }

  lemma {:induction false} LineAccepted(ts: seq<Token>, c: Cmd<string>, rest: seq<Token>)
    requires IsLine(ts, c) && (rest == [] || Starts(rest, ')'))
    ensures ParseLine(ts + rest) == Ok(c, rest)
    decreases |ts|, 3
  {
    hide ParsePipe, IsBack;
    if IsBack(ts, c) {
      BackAccepted(ts, c, rest);
    } else {
      var k :| 0 <= k < |ts| && ts[k] == Sym(';') && IsBack(ts[..k], c.left) && IsLine(ts[k + 1..], c.right);
      hide ParseLine, IsLine;
      var tail := Cut(ts, k, rest);
      BackAccepted(ts[..k], c.left, tail);
      LineAccepted(ts[k + 1..], c.right, rest);
      LineOn(ts + rest, c.left, tail, c.right, rest);
    }
  }

  // ---- and nothing else

  /** What was parsed is the beginning of the tokens, and is in the grammar. */
  ghost predicate Taken(ts: seq<Token>, rest: seq<Token>) {
    |rest| <= |ts| && ts[|ts| - |rest|..] == rest
  }

  function Head(ts: seq<Token>, rest: seq<Token>): (h: seq<Token>)
    requires |rest| <= |ts|
  {
    ts[..|ts| - |rest|]
  }

  lemma {:induction false} PairWords(a: Token, w: Token, ts: seq<Token>)
    requires a.Arrow? && w.Word?
    ensures WordsIn([a, w] + ts) == WordsIn(ts) && RedirsIn([a, w] + ts) == [(w.w, a.mode)] + RedirsIn(ts)
  {
    var all := [a, w] + ts;
    if ts == [] {
      assert all[..1] == [a] && all[..1][..0] == [];
      InNext(all, 0);
      InNext(all, 1);
      assert all[..2] == all && all[..0] == [];
    } else {
      var m := |ts| - 1;
      PairWords(a, w, ts[..m]);
      assert all[..|all| - 1] == [a, w] + ts[..m];
      assert all[|all| - 1] == ts[m];
      assert AfterArrow(all, |all| - 1) <==> AfterArrow(ts, m);
    }
  }

  lemma {:induction false} PairFirst(a: Token, w: Token, ts: seq<Token>)
    requires a.Arrow? && w.Word? && Arrows(ts)
    ensures Arrows([a, w] + ts) && RedirsIn([a, w] + ts) == [(w.w, a.mode)] + RedirsIn(ts)
  {
    var all := [a, w] + ts;
    ItemsMore([a, w], ts);
    PairWords(a, w, ts);
  }

  lemma {:induction false} ArrowsTaken(ts: seq<Token>)
    ensures var r := ParseRedirs(ts);
            r.Redirs? ==> Taken(ts, r.rest) && Arrows(Head(ts, r.rest)) && r.rs == RedirsIn(Head(ts, r.rest))
  {
    if ts != [] && ts[0].Arrow? && |ts| >= 2 && ts[1].Word? {
      ArrowsTaken(ts[2..]);
      var r := ParseRedirs(ts[2..]);
      if r.Redirs? {
        var h := Head(ts[2..], r.rest);
        assert Head(ts, r.rest) == [ts[0], ts[1]] + h;
        PairFirst(ts[0], ts[1], h);
      }
    } else if ts == [] || !ts[0].Arrow? {
      assert Head(ts, ts) == [];
    }
  }

  lemma BlockTaken(ts: seq<Token>, d: Cmd<string>, close: seq<Token>, rest: seq<Token>)
    requires Starts(ts, '(') && Taken(ts[1..], close) && IsLine(Head(ts[1..], close), d)
    requires Starts(close, ')') && Taken(close[1..], rest) && Arrows(Head(close[1..], rest))
    ensures Taken(ts, rest) && IsExec(Head(ts, rest), Wrap(d, RedirsIn(Head(close[1..], rest))))
  {
    hide Arrows, RedirsIn, IsLine, Wrap, SimpleCmd;
    var h, k := Head(ts, rest), |ts| - |close|;
    assert h[0] == ts[0] && h[k] == Sym(')') && h[1..k] == Head(ts[1..], close);
    assert h[k + 1..] == Head(close[1..], rest);
    assert IsLine(h[1..k], d) && Arrows(h[k + 1..]);
  }

  lemma {:induction false} ExecTaken(ts: seq<Token>)
    ensures var r := ParseExec(ts); r.Ok? ==> Taken(ts, r.rest) && IsExec(Head(ts, r.rest), r.cmd)
    decreases |ts|, 0
  {
    hide Items, WordsIn, RedirsIn, ExecLen, ParseRedirs, ParseLine, IsLine, Wrap;
    var r := ParseExec(ts);
    if !Starts(ts, '(') {
      SimpleExec(ts);
      if r.Ok? {
        assert Head(ts, r.rest) == ts[..ExecLen(ts)];
      }
    } else if r.Ok? {
      LineTaken(ts[1..]);
      var l := ParseLine(ts[1..]);
      ArrowsTaken(l.rest[1..]);
      var rs := ParseRedirs(l.rest[1..]);
      BlockTaken(ts, l.cmd, l.rest, rs.rest);
    }
  }

  lemma {:induction false} PipeTaken(ts: seq<Token>)
    ensures var r := ParsePipe(ts); r.Ok? ==> Taken(ts, r.rest) && IsPipe(Head(ts, r.rest), r.cmd)
    decreases |ts|, 1
  {
    hide ParseExec, IsExec;
    ExecTaken(ts);
    var e, r := ParseExec(ts), ParsePipe(ts);
    if r.Ok? && Starts(e.rest, '|') {
      PipeTaken(e.rest[1..]);
      var h, k := Head(ts, r.rest), |ts| - |e.rest|;
      assert h[k] == Sym('|') && h[..k] == Head(ts, e.rest) && h[k + 1..] == Head(e.rest[1..], r.rest);
    }
  }

  lemma {:induction false} BackTaken(ts: seq<Token>, c: Cmd<string>, rest: seq<Token>)
    requires Taken(ts, rest) && IsBack(Head(ts, rest), c)
    ensures var r := Backs(c, rest); Taken(ts, r.1) && IsBack(Head(ts, r.1), r.0)
    decreases |rest|
  {
    hide IsPipe;
    if Starts(rest, '&') {
      var h := Head(ts, rest[1..]);
      assert h[|h| - 1] == Sym('&') && h[..|h| - 1] == Head(ts, rest);
      BackTaken(ts, Back(c), rest[1..]);
    }
  }

  lemma PipeIsBack(ts: seq<Token>, c: Cmd<string>)
    requires IsPipe(ts, c)
    ensures IsBack(ts, c)
  {
  }

  lemma {:induction false} LineTaken(ts: seq<Token>)
    ensures var r := ParseLine(ts); r.Ok? ==> Taken(ts, r.rest) && IsLine(Head(ts, r.rest), r.cmd)
    decreases |ts|, 2
  {
    hide ParsePipe, IsBack, Backs;
    PipeTaken(ts);
    var p, r := ParsePipe(ts), ParseLine(ts);
    if r.Ok? {
      PipeIsBack(Head(ts, p.rest), p.cmd);
      BackTaken(ts, p.cmd, p.rest);
      var (c, rest) := Backs(p.cmd, p.rest);
      if Starts(rest, ';') {
        LineTaken(rest[1..]);
        var h, k := Head(ts, r.rest), |ts| - |rest|;
        assert h[k] == Sym(';') && h[..k] == Head(ts, rest) && h[k + 1..] == Head(rest[1..], r.rest);
      }
    }
  }

  /** The parser is the grammar: a line of tokens stands for a command exactly if the grammar derives it, and
      so for at most one. */
  lemma ParserIsGrammar(ts: seq<Token>, c: Cmd<string>)
    ensures ParseCmd(ts) == Some(c) <==> IsLine(ts, c)
  {
    hide ParseLine, IsLine;
    assert ts + [] == ts;
    if IsLine(ts, c) { LineAccepted(ts, c, []); }
    LineTaken(ts);
    var r := ParseLine(ts);
    if r.Ok? && r.rest == [] { assert Head(ts, r.rest) == ts; }
  }

  // ---- the tokens of a line

  /** What follows a token does not continue it. */
  predicate Ends(t: Token, rest: string) {
    rest == [] || match t
                  case Word(w) => !WordChar(rest[0])
                  case Arrow(mode) => mode == Out ==> rest[0] != '>'
                  case Sym(c) => true
  }

  predicate Blank(s: string) { forall i :: 0 <= i < |s| ==> White(s[i]) }

  /** Token t stands at i, up to j, with only blanks before it. */
  predicate FirstAt(s: string, t: Token, i: nat, j: nat) {
    i <= j <= |s| && Blank(s[..i]) && TokOk(t) && s[i..j] == Text(t) && Ends(t, s[j..])
  }

  /** The line is these tokens, with blanks between them wherever two would otherwise be one. */
  ghost predicate Spelled(s: string, ts: seq<Token>)
    decreases |ts|
  {
    if ts == [] then Blank(s)
    else
      exists i: nat, j: nat :: FirstAt(s, ts[0], i, j) && Spelled(s[j..], ts[1..])
  }

  lemma {:induction false} LexBlank(s: string, i: nat)
    requires i <= |s| && Blank(s[..i])
    ensures Lex(s) == Lex(s[i..])
  {
    if i > 0 {
      assert White(s[..i][0]);
      assert s[1..][..i - 1] == s[..i][1..];
      LexBlank(s[1..], i - 1);
      assert s[1..][i - 1..] == s[i..];
    } else {
      assert s[i..] == s;
    }
  }

  lemma {:induction false} WordEnds(s: string, n: nat)
    requires n <= |s| && (forall i :: 0 <= i < n ==> WordChar(s[i])) && (n < |s| ==> !WordChar(s[n]))
    ensures WordLen(s) == n
  {
  }

  /** A token at the beginning of a line. */
  lemma LexFirst(t: Token, rest: string)
    requires TokOk(t) && Ends(t, rest)
    ensures Lex(Text(t) + rest) == [t] + Lex(rest)
  {
    var s, n := Text(t) + rest, |Text(t)|;
    assert s[n..] == rest && s[..n] == Text(t);
    if t.Word? {
      WordEnds(s, n);
    } else {
      assert s[0] == Text(t)[0];
    }
  }

  lemma LexAt(s: string, t: Token, i: nat, j: nat)
    requires FirstAt(s, t, i, j)
    ensures Lex(s) == [t] + Lex(s[j..])
  {
    hide Lex, Text, TokOk, Ends;
    LexBlank(s, i);
    assert s[i..] == Text(t) + s[j..];
    LexFirst(t, s[j..]);
  }

  lemma LexNothing(s: string)
    ensures Lex(s[|s|..]) == []
  {
  }

  lemma {:induction false} SpelledIsLex(s: string, ts: seq<Token>)
    requires Spelled(s, ts)
    ensures Lex(s) == ts
    decreases |ts|
  {
    hide Lex;
    if ts == [] {
      assert s[..|s|] == s;
      LexBlank(s, |s|);
      LexNothing(s);
    } else {
      var i: nat, j: nat :| FirstAt(s, ts[0], i, j) && Spelled(s[j..], ts[1..]);
      hide Spelled;
      LexAt(s, ts[0], i, j);
      SpelledIsLex(s[j..], ts[1..]);
    }
  }

  /** The first token of a line that does not begin with a blank. */
  lemma FirstOf(s: string) returns (t: Token, n: nat)
    requires LineOk(s) && s != [] && !White(s[0])
    ensures 0 < n <= |s| && TokOk(t) && s[..n] == Text(t) && Ends(t, s[n..]) && Lex(s) == [t] + Lex(s[n..])
  {
    if s[0] == '<' {
      t, n := Arrow(In), 1;
    } else if s[0] == '>' && |s| > 1 && s[1] == '>' {
      t, n := Arrow(App), 2;
    } else if s[0] == '>' {
      t, n := Arrow(Out), 1;
    } else if Symbol(s[0]) {
      t, n := Sym(s[0]), 1;
    } else {
      n := WordLen(s);
      t := Word(s[..n]);
    }
  }

  lemma FirstLater(s: string, t: Token, i: nat, j: nat)
    requires s != [] && White(s[0]) && FirstAt(s[1..], t, i, j)
    ensures FirstAt(s, t, i + 1, j + 1)
  {
    hide TokOk, Text, Ends;
    assert s[..i + 1] == [s[0]] + s[1..][..i];
    assert s[i + 1..j + 1] == s[1..][i..j] && s[j + 1..] == s[1..][j..];
  }

  lemma BlankFirst(s: string, ts: seq<Token>)
    requires s != [] && White(s[0]) && Spelled(s[1..], ts)
    ensures Spelled(s, ts)
  {
    if ts == [] {
      assert forall i :: 0 < i < |s| ==> s[i] == s[1..][i - 1];
    } else {
      var i: nat, j: nat :| FirstAt(s[1..], ts[0], i, j) && Spelled(s[1..][j..], ts[1..]);
      FirstLater(s, ts[0], i, j);
      assert s[j + 1..] == s[1..][j..];
    }
  }

  lemma {:induction false} LexIsSpelled(s: string)
    requires LineOk(s)
    ensures Spelled(s, Lex(s))
    decreases |s|
  {
    if s != [] && White(s[0]) {
      LexIsSpelled(s[1..]);
      BlankFirst(s, Lex(s[1..]));
    } else if s != [] {
      var t, n := FirstOf(s);
      LexIsSpelled(s[n..]);
      hide Lex;
      var ts := Lex(s);
      assert ts[1..] == Lex(s[n..]) && ts[0] == t;
      assert FirstAt(s, ts[0], 0, n) && Spelled(s[n..], ts[1..]);
    }
  }

  /** The lexer gives the tokens that the line is spelled with. */
  lemma LexerIsSpelling(s: string, ts: seq<Token>)
    requires LineOk(s)
    ensures Lex(s) == ts <==> Spelled(s, ts)
  {
    hide Lex, Spelled;
    LexIsSpelled(s);
    if Spelled(s, ts) { SpelledIsLex(s, ts); }
  }
}
