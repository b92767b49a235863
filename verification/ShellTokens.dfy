/** The input as a sequence of tokens, and the parser on that sequence. */
module ShellTokens {
  import opened Options
  import opened ShellGrammar
  import opened ShellPrint

  /** A symbol, the sign >>, or a word. */
  datatype Lexeme = Mark(c: char) | Twice | Name(text: string)

  // ---------- what it means for an input to consist of tokens ----------

  /** s[q..eq] is this token, and no longer one starts at q. */
  predicate Spells(s: string, q: nat, eq: nat, x: Lexeme)
    requires q <= eq <= |s|
  {
    match x
    case Mark(c) => eq == q + 1 && IsSym(c) && s[q] == c && (c == '>' && eq < |s| ==> s[eq] != '>')
    case Twice => s[q..eq] == ">>"
    case Name(text) => IsTok(s, Tok(q, eq)) && s[q..eq] == text
  }

  /** From p on, s is these tokens with any white space around them. */
  ghost predicate Lexes(s: string, p: nat, ts: seq<Lexeme>)
    decreases |ts|
  {
    if ts == [] then Blank(s, p, |s|)
    else
      exists q: nat, eq: nat ::
        p <= q <= eq <= |s| && Blank(s, p, q) && Spells(s, q, eq, ts[0]) && Lexes(s, eq, ts[1..])
  }

  // ---------- the tokens `gettoken` gives ----------

  function LexemeOf(s: string, t: Token): Lexeme
    requires t.q <= t.eq <= |s|
  {
    match t.kind
    case Append => Twice
    case Sym(c) => Mark(c)
    case _ => Name(s[t.q..t.eq])
  }

  function Tokens(s: string, p: nat): (ts: seq<Lexeme>)
    requires p <= |s|
    decreases |s| - p
  {
    var t := GetToken(s, p);
    if t.kind == End then [] else [LexemeOf(s, t)] + Tokens(s, t.next)
  }

  lemma BlankSame(s: string, p: nat, q: nat)
    requires Blank(s, p, q)
    ensures SkipWs(s, p) == SkipWs(s, q)
    decreases q - p
  {
    if p < q {
      BlankSame(s, p + 1, q);
    }
  }

  /** White space in front does not matter. */
  lemma TokensAfterBlank(s: string, p: nat, q: nat)
    requires Blank(s, p, q)
    ensures Tokens(s, p) == Tokens(s, q) && GetToken(s, p) == GetToken(s, q)
  {
    hide Skipped, KindAt, EndsAt, LexemeOf;
    BlankSame(s, p, q);
  }

  lemma {:induction false} TokensAreLexed(s: string, p: nat)
    requires p <= |s|
    ensures Lexes(s, p, Tokens(s, p))
    decreases |s| - p
  {
    var t := GetToken(s, p);
    if t.kind != End {
      TokensAreLexed(s, t.next);
      TokensAfterBlank(s, t.eq, t.next);
      LexesAfterBlank(s, t.eq, t.next, Tokens(s, t.next));
      SpellsIt(s, p);
      var ts := Tokens(s, p);
      assert ts[1..] == Tokens(s, t.next);
      assert Blank(s, p, t.q) && Spells(s, t.q, t.eq, ts[0]) && Lexes(s, t.eq, ts[1..]);
    }
  }

  lemma SpellsIt(s: string, p: nat)
    requires p <= |s| && GetToken(s, p).kind != End
    ensures var t := GetToken(s, p); t.q <= t.eq <= |s| && Spells(s, t.q, t.eq, LexemeOf(s, t))
  {}

  lemma LexesAfterBlank(s: string, p: nat, q: nat, ts: seq<Lexeme>)
    requires Blank(s, p, q) && Lexes(s, q, ts)
    ensures Lexes(s, p, ts)
  {
    if ts != [] {
      var a: nat, b: nat :| q <= a <= b <= |s| && Blank(s, q, a) && Spells(s, a, b, ts[0]) && Lexes(s, b, ts[1..]);
      assert Blank(s, p, a);
    }
  }

  /** The token at q is the one spelled there. */
  lemma SpelledIsNext(s: string, p: nat, q: nat, eq: nat, x: Lexeme)
    requires p <= q <= eq <= |s| && Blank(s, p, q) && Spells(s, q, eq, x)
    ensures var t := GetToken(s, p); t.kind != End && t.eq == eq && LexemeOf(s, t) == x
  {
    TokensAfterBlank(s, p, q);
    SpelledStarts(s, q, eq, x);
    BlankSame(s, q, q);
    if x.Name? {
      WordEndIs(s, q, eq);
    }
  }

  lemma SpelledStarts(s: string, q: nat, eq: nat, x: Lexeme)
    requires q <= eq <= |s| && Spells(s, q, eq, x)
    ensures q < |s| && q < eq && !IsWs(s[q]) && SkipWs(s, q) == q
    ensures x.Twice? ==> eq == q + 2 && s[q] == '>' && s[q + 1] == '>'
    ensures x.Name? ==> IsWordChar(s[q])
  {
    if x.Twice? {
      assert |s[q..eq]| == 2 && s[q..eq][0] == '>' && s[q..eq][1] == '>';
    }
  }

  /** An input is tokens in one way only. */
  lemma {:induction false} LexedAreTokens(s: string, p: nat, ts: seq<Lexeme>)
    requires p <= |s| && Lexes(s, p, ts)
    ensures ts == Tokens(s, p)
    decreases |ts|
  {
    if ts == [] {
      TokensAfterBlank(s, p, |s|);
    } else {
      var q: nat, eq: nat :| p <= q <= eq <= |s| && Blank(s, p, q) && Spells(s, q, eq, ts[0]) && Lexes(s, eq, ts[1..]);
      SpelledIsNext(s, p, q, eq, ts[0]);
      LexedAreTokens(s, eq, ts[1..]);
      TokensAfterBlank(s, eq, GetToken(s, p).next);
    }
  }

  // ---------- looking at the next token ----------

  predicate StartsWith(ts: seq<Lexeme>, x: Lexeme) {
    ts != [] && ts[0] == x
  }

  lemma FirstToken(s: string, p: nat)
    requires p <= |s|
    ensures var t := GetToken(s, p);
            && (t.kind == End <==> Tokens(s, p) == [])
            && (t.kind == End ==> Tokens(s, t.next) == [])
            && (t.kind != End ==>
                  && p < t.next && t.q <= t.eq <= |s|
                  && Tokens(s, p)[0] == LexemeOf(s, t) && Tokens(s, p)[1..] == Tokens(s, t.next))
  {
    var t := GetToken(s, p);
    if t.kind == End {
      TokensAfterBlank(s, p, t.next);
    } else {
      assert Tokens(s, p)[1..] == Tokens(s, t.next);
    }
  }

  lemma PeekMark(s: string, p: nat, c: char)
    requires p <= |s| && IsSym(c) && c != '>'
    ensures Peek(s, p, [c]) <==> StartsWith(Tokens(s, p), Mark(c))
    ensures Peek(s, p, [c]) ==> GetToken(s, p).next > p && Tokens(s, GetToken(s, p).next) == Tokens(s, p)[1..]
  {
    var t := GetToken(s, p);
    SameSkip(s, p);
    if t.kind != End {
      assert Tokens(s, p)[1..] == Tokens(s, t.next);
    }
  }

  lemma SameSkip(s: string, p: nat)
    requires p <= |s|
    ensures GetToken(s, p).q == SkipWs(s, p) && Tokens(s, SkipWs(s, p)) == Tokens(s, p)
  {
    TokensAfterBlank(s, p, SkipWs(s, p));
  }

  predicate IsRedir(x: Lexeme) {
    x == Mark('<') || x == Mark('>') || x == Twice
  }

  predicate EndsExec(x: Lexeme) {
    x == Mark('|') || x == Mark(')') || x == Mark('&') || x == Mark(';')
  }

  lemma PeekRedir(s: string, p: nat)
    requires p <= |s|
    ensures Peek(s, p, "<>") <==> Tokens(s, p) != [] && IsRedir(Tokens(s, p)[0])
  {
    SameSkip(s, p);
  }

  lemma PeekEnds(s: string, p: nat)
    requires p <= |s|
    ensures Peek(s, p, "|)&;") <==> Tokens(s, p) != [] && EndsExec(Tokens(s, p)[0])
  {
    SameSkip(s, p);
  }

  // ---------- the parser on tokens ----------

  datatype Parsing<T> = Done(value: T, rest: seq<Lexeme>) | Stuck

  function ModeFor(x: Lexeme): Mode {
    if x == Twice then App else if x == Mark('>') then Out else In
  }

  function TRedirs(ts: seq<Lexeme>): (r: Parsing<seq<TextRedir>>)
    ensures r.Done? ==> |r.rest| <= |ts|
    decreases |ts|
  {
    if ts == [] || !IsRedir(ts[0]) then Done([], ts)
    else if |ts| == 1 || !ts[1].Name? then Stuck
    else
      var more := TRedirs(ts[2..]);
      if more.Stuck? then Stuck
      else Done([Redirection(ModeFor(ts[0]), ts[1].text)] + more.value, more.rest)
  }

  datatype Plain = Plain(argv: seq<string>, redirs: seq<TextRedir>)

  function TArgs(ts: seq<Lexeme>, x: Plain): (r: Parsing<Plain>)
    ensures r.Done? ==> |r.rest| <= |ts|
    decreases |ts|
  {
    if ts == [] || EndsExec(ts[0]) then Done(x, ts)
    else if !ts[0].Name? || |x.argv| + 1 >= MAXARGS then Stuck
    else
      var rs := TRedirs(ts[1..]);
      if rs.Stuck? then Stuck else TArgs(rs.rest, Plain(x.argv + [ts[0].text], x.redirs + rs.value))
  }

  function TLine(ts: seq<Lexeme>): (r: Parsing<Tree>)
    ensures r.Done? ==> |r.rest| <= |ts|
    decreases |ts|, 3
  {
    var c := TPipe(ts);
    if c.Stuck? then Stuck
    else
      var b := TBacks(c.rest, c.value);
      if StartsWith(b.rest, Mark(';')) then
        var more := TLine(b.rest[1..]);
        if more.Stuck? then Stuck else Done(List(b.value, more.value), more.rest)
      else b
  }

  function TBacks(ts: seq<Lexeme>, c: Tree): (r: Parsing<Tree>)
    ensures r.Done? && |r.rest| <= |ts|
    decreases |ts|
  {
    if StartsWith(ts, Mark('&')) then TBacks(ts[1..], Back(c)) else Done(c, ts)
  }

  function TPipe(ts: seq<Lexeme>): (r: Parsing<Tree>)
    ensures r.Done? ==> |r.rest| <= |ts|
    decreases |ts|, 2
  {
    var c := TExec(ts);
    if c.Stuck? then Stuck
    else if StartsWith(c.rest, Mark('|')) then
      var more := TPipe(c.rest[1..]);
      if more.Stuck? then Stuck else Done(Pipe(c.value, more.value), more.rest)
    else c
  }

  function TExec(ts: seq<Lexeme>): (r: Parsing<Tree>)
    ensures r.Done? ==> |r.rest| <= |ts|
    decreases |ts|, 1
  {
    if StartsWith(ts, Mark('(')) then
      var c := TLine(ts[1..]);
      if c.Stuck? || !StartsWith(c.rest, Mark(')')) then Stuck
      else
        var rs := TRedirs(c.rest[1..]);
        if rs.Stuck? then Stuck else Done(Wrap(c.value, rs.value), rs.rest)
    else
      var rs := TRedirs(ts);
      if rs.Stuck? then Stuck
      else
        var x := TArgs(rs.rest, Plain([], rs.value));
        if x.Stuck? then Stuck else Done(Wrap(Exec(x.value.argv), x.value.redirs), x.rest)
  }

  // ---------- the parser on characters does the same ----------

  /** The outcome on characters, seen as one on tokens. */
  ghost predicate SameRedirs(s: string, r: Parse<seq<Redirection<Tok>>>, t: Parsing<seq<TextRedir>>) {
    match r
    case Fail => t.Stuck?
    case Ok(value, next) => next <= |s| && t == Done(ReadRedirs(s, value), Tokens(s, next))
  }

  lemma {:induction false} RedirsSame(s: string, p: nat)
    requires p <= |s|
    ensures SameRedirs(s, Redirs(s, p), TRedirs(Tokens(s, p)))
    decreases |s| - p
  {
    hide GetToken, SkipWs, Tokens, Skipped, Blank, KindAt, EndsAt, Peek;
    PeekRedir(s, p);
    SameSkip(s, p);
    FirstToken(s, p);
    if Peek(s, p, "<>") {
      var t := GetToken(s, p);
      var f := GetToken(s, t.next);
      FirstToken(s, t.next);
      var ts := Tokens(s, p);
      if f.kind == Word {
        RedirsSame(s, f.next);
        assert ts[2..] == ts[1..][1..] == Tokens(s, f.next);
        if Redirs(s, f.next).Ok? {
          RedirRead(s, p);
        }
      }
    }
  }

  lemma RedirRead(s: string, p: nat)
    requires p <= |s| && Peek(s, p, "<>") && Redirs(s, p).Ok?
    ensures var t := GetToken(s, p);
            var f := GetToken(s, t.next);
            && f.kind == Word && Redirs(s, f.next).Ok? && Redirs(s, p).next == Redirs(s, f.next).next
            && ReadRedirs(s, Redirs(s, p).value)
               == [Redirection(ModeOf(t.kind), s[f.q..f.eq])] + ReadRedirs(s, Redirs(s, f.next).value)
  {
    var t := GetToken(s, p);
    var f := GetToken(s, t.next);
    OneMore(s, Redirection(ModeOf(t.kind), Tok(f.q, f.eq)), Redirs(s, f.next).value);
  }

  function ReadSimple(s: string, x: Simple): Plain {
    Plain(Texts(s, x.argv), ReadRedirs(s, x.redirs))
  }

  ghost predicate SameArgs(s: string, r: Parse<Simple>, t: Parsing<Plain>) {
    match r
    case Fail => t.Stuck?
    case Ok(value, next) => next <= |s| && t == Done(ReadSimple(s, value), Tokens(s, next))
  }

  lemma {:induction false} ArgsSame(s: string, p: nat, x: Simple)
    requires p <= |s|
    ensures SameArgs(s, Args(s, p, x), TArgs(Tokens(s, p), ReadSimple(s, x)))
    decreases |s| - p
  {
    hide GetToken, SkipWs, Tokens, Skipped, KindAt, EndsAt, Peek;
    PeekEnds(s, p);
    SameSkip(s, p);
    FirstToken(s, p);
    var t := GetToken(s, p);
    if t.kind != End && !Peek(s, p, "|)&;") && t.kind == Word && |x.argv| + 1 < MAXARGS {
      RedirsSame(s, t.next);
      var rs := Redirs(s, t.next);
      if rs.Ok? {
        var y := Simple(x.argv + [Tok(t.q, t.eq)], x.redirs + rs.value);
        ArgsSame(s, rs.next, y);
        ReadMore(s, x, Tok(t.q, t.eq), rs.value);
      }
    }
  }

  lemma ReadMore(s: string, x: Simple, t: Tok, rs: seq<Redirection<Tok>>)
    ensures ReadSimple(s, Simple(x.argv + [t], x.redirs + rs))
            == Plain(Texts(s, x.argv) + [Text(s, t)], ReadRedirs(s, x.redirs) + ReadRedirs(s, rs))
  {
    ReadRedirsAppend(s, x.redirs, rs);
  }

  ghost predicate SameCmd(s: string, r: Parse<Parsed>, t: Parsing<Tree>) {
    match r
    case Fail => t.Stuck?
    case Ok(value, next) => next <= |s| && t == Done(Read(s, value), Tokens(s, next))
  }

  lemma {:induction false} LineSame(s: string, p: nat)
    requires p <= |s|
    ensures SameCmd(s, ParseLine(s, p), TLine(Tokens(s, p)))
    decreases |s| - p, 3
  {
    hide GetToken, SkipWs, Tokens, Skipped, Blank, KindAt, EndsAt, Peek;
    PipeSame(s, p);
    var c := ParsePipe(s, p);
    if c.Ok? {
      BacksSame(s, c.next, c.value);
      var b := Backs(s, c.next, c.value);
      PeekMark(s, b.next, ';');
      SameSkip(s, b.next);
      if Peek(s, b.next, ";") {
        LineSame(s, GetToken(s, b.next).next);
      }
    }
  }

  lemma {:induction false} BacksSame(s: string, p: nat, c: Parsed)
    requires p <= |s|
    ensures SameCmd(s, Backs(s, p, c), TBacks(Tokens(s, p), Read(s, c)))
    decreases |s| - p
  {
    hide GetToken, SkipWs, Tokens, Skipped, Blank, KindAt, EndsAt, Peek;
    PeekMark(s, p, '&');
    SameSkip(s, p);
    if Peek(s, p, "&") {
      BacksSame(s, GetToken(s, p).next, Back(c));
    }
  }

  lemma {:induction false} PipeSame(s: string, p: nat)
    requires p <= |s|
    ensures SameCmd(s, ParsePipe(s, p), TPipe(Tokens(s, p)))
    decreases |s| - p, 2
  {
    hide GetToken, SkipWs, Tokens, Skipped, Blank, KindAt, EndsAt, Peek;
    ExecSame(s, p);
    var c := ParseExec(s, p);
    if c.Ok? {
      PeekMark(s, c.next, '|');
      SameSkip(s, c.next);
      if Peek(s, c.next, "|") {
        PipeSame(s, GetToken(s, c.next).next);
      }
    }
  }

  lemma {:induction false} ExecSame(s: string, p: nat)
    requires p <= |s|
    ensures SameCmd(s, ParseExec(s, p), TExec(Tokens(s, p)))
    decreases |s| - p, 1
  {
    hide GetToken, SkipWs, Tokens, Skipped, Blank, KindAt, EndsAt, Peek;
    PeekMark(s, p, '(');
    if Peek(s, p, "(") {
      LineSame(s, GetToken(s, p).next);
      var c := ParseLine(s, GetToken(s, p).next);
      if c.Ok? {
        PeekMark(s, c.next, ')');
        if Peek(s, c.next, ")") {
          var q := GetToken(s, c.next).next;
          RedirsSame(s, q);
          if Redirs(s, q).Ok? {
            ReadWrap(s, c.value, Redirs(s, q).value);
          }
        }
      }
    } else {
      RedirsSame(s, p);
      var rs := Redirs(s, p);
      if rs.Ok? {
        var x := Simple([], rs.value);
        ArgsSame(s, rs.next, x);
        var y := Args(s, rs.next, x);
        if y.Ok? {
          ReadWrap(s, Exec(y.value.argv), y.value.redirs);
        }
      }
    }
  }
}
