/** The language the shell accepts, as a grammar over tokens, and what each sentence means: the
    parser accepts exactly the sentences and gives each its meaning, however it is spaced. */
module ShellLanguage {
  import opened Options
  import opened ShellGrammar
  import opened ShellPrint
  import opened ShellTokens

  // ---------- sentences ----------

  /** An argument and the redirections behind it. */
  datatype Arg = Arg(text: string, redirs: seq<TextRedir>)

  /** A command: redirections and arguments in any order, or a line in parentheses. */
  datatype Phrase =
    | Plainly(front: seq<TextRedir>, args: seq<Arg>)
    | Group(body: Line, redirs: seq<TextRedir>)

  /** Commands with bars between them. */
  datatype Piped = Single(cmd: Phrase) | Into(cmd: Phrase, next: Piped)

  /** A pipe, any number of ampersands, and perhaps a semicolon and another line. */
  datatype Line = Only(pipe: Piped, backs: nat) | Then(pipe: Piped, backs: nat, next: Line)

  /** No command has more than nine arguments. */
  predicate FitsLine(l: Line) {
    FitsPiped(l.pipe) && (l.Then? ==> FitsLine(l.next))
  }

  predicate FitsPiped(p: Piped) {
    FitsPhrase(p.cmd) && (p.Into? ==> FitsPiped(p.next))
  }

  predicate FitsPhrase(c: Phrase) {
    match c
    case Plainly(_, args) => |args| < MAXARGS
    case Group(body, _) => FitsLine(body)
  }

  // ---------- their tokens ----------

  function SignOf(m: Mode): Lexeme {
    match m
    case In => Mark('<')
    case Out => Mark('>')
    case App => Twice
  }

  function SpellRedirs(rs: seq<TextRedir>): seq<Lexeme> {
    if rs == [] then [] else [SignOf(rs[0].mode), Name(rs[0].file)] + SpellRedirs(rs[1..])
  }

  function SpellArgs(args: seq<Arg>): seq<Lexeme> {
    if args == [] then [] else [Name(args[0].text)] + SpellRedirs(args[0].redirs) + SpellArgs(args[1..])
  }

  function SpellPhrase(c: Phrase): seq<Lexeme> {
    match c
    case Plainly(front, args) => SpellRedirs(front) + SpellArgs(args)
    case Group(body, redirs) => [Mark('(')] + SpellLine(body) + [Mark(')')] + SpellRedirs(redirs)
  }

  function SpellPiped(p: Piped): seq<Lexeme> {
    match p
    case Single(c) => SpellPhrase(c)
    case Into(c, next) => SpellPhrase(c) + [Mark('|')] + SpellPiped(next)
  }

  function SpellLine(l: Line): seq<Lexeme> {
    match l
    case Only(p, n) => SpellPiped(p) + Ampersands(n)
    case Then(p, n, next) => SpellPiped(p) + Ampersands(n) + [Mark(';')] + SpellLine(next)
  }

  function Ampersands(n: nat): seq<Lexeme> {
    if n == 0 then [] else [Mark('&')] + Ampersands(n - 1)
  }

  // ---------- their meaning ----------

  function ArgTexts(args: seq<Arg>): (r: seq<string>)
    ensures |r| == |args|
  {
    if args == [] then [] else [args[0].text] + ArgTexts(args[1..])
  }

  function ArgRedirs(args: seq<Arg>): seq<TextRedir> {
    if args == [] then [] else args[0].redirs + ArgRedirs(args[1..])
  }

  /** The arguments in their order, wrapped in the redirections in theirs. */
  function MeansPhrase(c: Phrase): Tree {
    match c
    case Plainly(front, args) => Wrap(Exec(ArgTexts(args)), front + ArgRedirs(args))
    case Group(body, redirs) => Wrap(MeansLine(body), redirs)
  }

  function MeansPiped(p: Piped): Tree {
    match p
    case Single(c) => MeansPhrase(c)
    case Into(c, next) => Pipe(MeansPhrase(c), MeansPiped(next))
  }

  function MeansLine(l: Line): Tree {
    match l
    case Only(p, n) => Backed(MeansPiped(p), n)
    case Then(p, n, next) => List(Backed(MeansPiped(p), n), MeansLine(next))
  }

  function Backed(c: Tree, n: nat): Tree
    decreases n
  {
    if n == 0 then c else Backed(Back(c), n - 1)
  }

  // ---------- what may follow ----------

  predicate AfterPhrase(ts: seq<Lexeme>) {
    ts == [] || EndsExec(ts[0])
  }

  predicate AfterPiped(ts: seq<Lexeme>) {
    AfterPhrase(ts) && !StartsWith(ts, Mark('|'))
  }

  predicate AfterLine(ts: seq<Lexeme>) {
    ts == [] || ts[0] == Mark(')')
  }

  // ---------- every sentence is accepted with its meaning ----------

  lemma {:induction false} RedirsRead(rs: seq<TextRedir>, rest: seq<Lexeme>)
    requires rest == [] || !IsRedir(rest[0])
    ensures TRedirs(SpellRedirs(rs) + rest) == Done(rs, rest)
    decreases |rs|
  {
    if rs == [] {
      assert SpellRedirs(rs) + rest == rest;
    } else {
      RedirsRead(rs[1..], rest);
      var ts := SpellRedirs(rs) + rest;
      assert ts[0] == SignOf(rs[0].mode) && ts[1] == Name(rs[0].file);
      assert ts[2..] == SpellRedirs(rs[1..]) + rest;
      assert rs == [rs[0]] + rs[1..];
    }
  }

  lemma {:induction false} FirstArg(args: seq<Arg>, rest: seq<Lexeme>)
    requires args != []
    ensures var ts := SpellArgs(args) + rest;
            && ts != [] && ts[0] == Name(args[0].text)
            && ts[1..] == SpellRedirs(args[0].redirs) + (SpellArgs(args[1..]) + rest)
  {
    hide SpellRedirs;
  }

  /** The first argument gathered, the others to come. */
  lemma {:induction false} Gathered(args: seq<Arg>, x: Plain)
    requires args != []
    ensures (x.argv + [args[0].text]) + ArgTexts(args[1..]) == x.argv + ArgTexts(args)
    ensures (x.redirs + args[0].redirs) + ArgRedirs(args[1..]) == x.redirs + ArgRedirs(args)
  {}

  lemma {:induction false} ArgsRead(args: seq<Arg>, rest: seq<Lexeme>, x: Plain)
    requires AfterPhrase(rest) && |x.argv| + |args| < MAXARGS
    ensures TArgs(SpellArgs(args) + rest, x)
            == Done(Plain(x.argv + ArgTexts(args), x.redirs + ArgRedirs(args)), rest)
    decreases |args|
  {
    if args == [] {
      assert SpellArgs(args) + rest == rest;
      assert x.argv + ArgTexts(args) == x.argv && x.redirs + ArgRedirs(args) == x.redirs;
    } else {
      hide SpellArgs, SpellRedirs, ArgTexts, ArgRedirs, TRedirs;
      var more := SpellArgs(args[1..]) + rest;
      FirstArg(args, rest);
      NoRedirAhead(args[1..], rest);
      RedirsRead(args[0].redirs, more);
      ArgsRead(args[1..], rest, Plain(x.argv + [args[0].text], x.redirs + args[0].redirs));
      Gathered(args, x);
    }
  }

  lemma {:induction false} NoRedirAhead(args: seq<Arg>, rest: seq<Lexeme>)
    requires AfterPhrase(rest)
    ensures var ts := SpellArgs(args) + rest; ts == [] || !IsRedir(ts[0])
  {}

  lemma {:induction false} PlainlyRead(front: seq<TextRedir>, args: seq<Arg>, rest: seq<Lexeme>)
    requires |args| < MAXARGS && AfterPhrase(rest)
    ensures TExec(SpellPhrase(Plainly(front, args)) + rest) == Done(MeansPhrase(Plainly(front, args)), rest)
  {
    hide SpellArgs, SpellRedirs, ArgRedirs, ArgTexts, TRedirs, TArgs, Wrap;
    var more := SpellArgs(args) + rest;
    NotOpening(front, args, rest);
    NoRedirAhead(args, rest);
    RedirsRead(front, more);
    ArgsRead(args, rest, Plain([], front));
    assert [] + ArgTexts(args) == ArgTexts(args);
  }

  lemma {:induction false} NotOpening(front: seq<TextRedir>, args: seq<Arg>, rest: seq<Lexeme>)
    requires AfterPhrase(rest)
    ensures var ts := SpellPhrase(Plainly(front, args)) + rest;
            ts == SpellRedirs(front) + (SpellArgs(args) + rest) && !StartsWith(ts, Mark('('))
  {}

  lemma {:induction false} PhraseRead(c: Phrase, rest: seq<Lexeme>)
    requires FitsPhrase(c) && AfterPhrase(rest)
    ensures TExec(SpellPhrase(c) + rest) == Done(MeansPhrase(c), rest)
    decreases c, 0
  {
    match c
    case Plainly(front, args) =>
      PlainlyRead(front, args, rest);
    case Group(body, redirs) =>
      var ts := SpellPhrase(c) + rest;
      var more := [Mark(')')] + (SpellRedirs(redirs) + rest);
      assert ts[0] == Mark('(');
      assert ts[1..] == SpellLine(body) + more;
      LineRead(body, more);
      assert more[1..] == SpellRedirs(redirs) + rest;
      RedirsRead(redirs, rest);
  }

  lemma {:induction false} PipedRead(p: Piped, rest: seq<Lexeme>)
    requires FitsPiped(p) && AfterPiped(rest)
    ensures TPipe(SpellPiped(p) + rest) == Done(MeansPiped(p), rest)
    decreases p, 1
  {
    match p
    case Single(c) =>
      PhraseRead(c, rest);
    case Into(c, next) =>
      var more := [Mark('|')] + (SpellPiped(next) + rest);
      assert SpellPiped(p) + rest == SpellPhrase(c) + more;
      PhraseRead(c, more);
      assert more[1..] == SpellPiped(next) + rest;
      PipedRead(next, rest);
  }

  lemma {:induction false} BacksRead(n: nat, rest: seq<Lexeme>, c: Tree)
    requires !StartsWith(rest, Mark('&'))
    ensures TBacks(Ampersands(n) + rest, c) == Done(Backed(c, n), rest)
    decreases n
  {
    if n == 0 {
      assert Ampersands(n) + rest == rest;
    } else {
      var ts := Ampersands(n) + rest;
      assert ts[0] == Mark('&') && ts[1..] == Ampersands(n - 1) + rest;
      BacksRead(n - 1, rest, Back(c));
    }
  }

  lemma {:induction false} AmpersandAhead(n: nat, behind: seq<Lexeme>)
    requires AfterPiped(behind)
    ensures AfterPiped(Ampersands(n) + behind)
  {}

  lemma {:induction false} LineRead(l: Line, rest: seq<Lexeme>)
    requires FitsLine(l) && AfterLine(rest)
    ensures TLine(SpellLine(l) + rest) == Done(MeansLine(l), rest)
    decreases l, 2
  {
    hide SpellPiped, TPipe, MeansPiped, FitsPiped, Ampersands, TBacks;
    var behind := if l.Then? then [Mark(';')] + (SpellLine(l.next) + rest) else rest;
    var more := Ampersands(l.backs) + behind;
    assert SpellLine(l) + rest == SpellPiped(l.pipe) + more;
    AmpersandAhead(l.backs, behind);
    PipedRead(l.pipe, more);
    BacksRead(l.backs, behind, MeansPiped(l.pipe));
    if l.Then? {
      assert behind[1..] == SpellLine(l.next) + rest;
      LineRead(l.next, rest);
    }
  }

  // ---------- whatever is accepted is a sentence ----------

  lemma {:induction false} RedirsSpelled(ts: seq<Lexeme>)
    requires TRedirs(ts).Done?
    ensures ts == SpellRedirs(TRedirs(ts).value) + TRedirs(ts).rest
    decreases |ts|
  {
    if ts != [] && IsRedir(ts[0]) {
      RedirsSpelled(ts[2..]);
      var more := TRedirs(ts[2..]);
      var rs := TRedirs(ts).value;
      assert rs[1..] == more.value;
      assert ts == [ts[0], ts[1]] + ts[2..];
    }
  }

  lemma {:induction false} SameSeq(a: seq<Lexeme>, b: seq<Lexeme>)
    requires a != [] && b != [] && a[0] == b[0] && a[1..] == b[1..]
    ensures a == b
  {
    assert a == [a[0]] + a[1..] && b == [b[0]] + b[1..];
  }

  lemma {:induction false} ArgsSpelled(ts: seq<Lexeme>, x: Plain) returns (args: seq<Arg>)
    requires |x.argv| < MAXARGS && TArgs(ts, x).Done?
    ensures |x.argv| + |args| < MAXARGS && ts == SpellArgs(args) + TArgs(ts, x).rest
    ensures TArgs(ts, x).value == Plain(x.argv + ArgTexts(args), x.redirs + ArgRedirs(args))
    decreases |ts|
  {
    if ts == [] || EndsExec(ts[0]) {
      args := [];
      assert x.argv + [] == x.argv && x.redirs + [] == x.redirs;
    } else {
      hide SpellArgs, SpellRedirs, ArgTexts, ArgRedirs, TRedirs;
      var rs := TRedirs(ts[1..]);
      RedirsSpelled(ts[1..]);
      var more := ArgsSpelled(rs.rest, Plain(x.argv + [ts[0].text], x.redirs + rs.value));
      args := [Arg(ts[0].text, rs.value)] + more;
      assert args[1..] == more;
      Gathered(args, x);
      FirstArg(args, TArgs(ts, x).rest);
      SameSeq(ts, SpellArgs(args) + TArgs(ts, x).rest);
    }
  }

  lemma {:induction false} GroupTokens(ts: seq<Lexeme>, body: Line, inner: seq<Lexeme>, rs: seq<TextRedir>,
                                       rest: seq<Lexeme>)
    requires StartsWith(ts, Mark('(')) && ts[1..] == SpellLine(body) + inner
    requires StartsWith(inner, Mark(')')) && inner[1..] == SpellRedirs(rs) + rest
    ensures ts == SpellPhrase(Group(body, rs)) + rest
  {
    hide SpellLine, SpellRedirs;
    assert inner == [Mark(')')] + inner[1..];
    assert ts == [Mark('(')] + ts[1..];
  }

  lemma PlainlySpelled(ts: seq<Lexeme>) returns (c: Phrase)
    requires TExec(ts).Done? && !StartsWith(ts, Mark('('))
    ensures FitsPhrase(c) && ts == SpellPhrase(c) + TExec(ts).rest && MeansPhrase(c) == TExec(ts).value
  {
    hide SpellArgs, SpellRedirs, ArgRedirs, ArgTexts, TRedirs, TArgs, Wrap;
    var rs := TRedirs(ts);
    RedirsSpelled(ts);
    var args := ArgsSpelled(rs.rest, Plain([], rs.value));
    c := Plainly(rs.value, args);
    assert [] + ArgTexts(args) == ArgTexts(args);
  }

  lemma {:induction false} PhraseSpelled(ts: seq<Lexeme>) returns (c: Phrase)
    requires TExec(ts).Done?
    ensures FitsPhrase(c) && ts == SpellPhrase(c) + TExec(ts).rest && MeansPhrase(c) == TExec(ts).value
    decreases |ts|, 1
  {
    hide SpellLine, SpellRedirs, SpellPhrase, TRedirs, TArgs, Wrap;
    if StartsWith(ts, Mark('(')) {
      var body := LineSpelled(ts[1..]);
      var inner := TLine(ts[1..]).rest;
      var rs := TRedirs(inner[1..]);
      RedirsSpelled(inner[1..]);
      c := Group(body, rs.value);
      GroupTokens(ts, body, inner, rs.value, rs.rest);
    } else {
      c := PlainlySpelled(ts);
    }
  }

  lemma {:induction false} PipedSpelled(ts: seq<Lexeme>) returns (p: Piped)
    requires TPipe(ts).Done?
    ensures FitsPiped(p) && ts == SpellPiped(p) + TPipe(ts).rest && MeansPiped(p) == TPipe(ts).value
    decreases |ts|, 2
  {
    hide SpellPhrase, MeansPhrase, TExec, FitsPhrase;
    var c := PhraseSpelled(ts);
    var r := TExec(ts);
    p := Single(c);
    if StartsWith(r.rest, Mark('|')) {
      var next := PipedSpelled(r.rest[1..]);
      p := Into(c, next);
      assert r.rest == [Mark('|')] + r.rest[1..];
    }
  }

  lemma {:induction false} BacksSpelled(ts: seq<Lexeme>, c: Tree) returns (n: nat)
    ensures ts == Ampersands(n) + TBacks(ts, c).rest && TBacks(ts, c).value == Backed(c, n)
    decreases |ts|
  {
    n := 0;
    if StartsWith(ts, Mark('&')) {
      var m := BacksSpelled(ts[1..], Back(c));
      n := m + 1;
      assert ts == [Mark('&')] + ts[1..];
    }
  }

  lemma {:induction false} LineSpelled(ts: seq<Lexeme>) returns (l: Line)
    requires TLine(ts).Done?
    ensures FitsLine(l) && ts == SpellLine(l) + TLine(ts).rest && MeansLine(l) == TLine(ts).value
    decreases |ts|, 3
  {
    hide SpellPiped, TPipe, MeansPiped, FitsPiped, Ampersands, TBacks, Backed;
    var p := PipedSpelled(ts);
    var c := TPipe(ts);
    var n := BacksSpelled(c.rest, c.value);
    var b := TBacks(c.rest, c.value);
    l := Only(p, n);
    if StartsWith(b.rest, Mark(';')) {
      var next := LineSpelled(b.rest[1..]);
      l := Then(p, n, next);
      assert b.rest == [Mark(';')] + b.rest[1..];
    }
  }

  // ---------- the shell ----------

  /** s spells this sentence, with any white space around its tokens. */
  ghost predicate Sentence(s: string, l: Line) {
    FitsLine(l) && Lexes(s, 0, SpellLine(l))
  }

  /** Every sentence, spaced in any way and with its redirections in any place, is accepted and
      read as what it means. */
  lemma SentenceParses(s: string, l: Line)
    requires Sentence(s, l)
    ensures ParseCmd(s).Some? && Read(s, ParseCmd(s).value) == MeansLine(l)
  {
    var ts := SpellLine(l);
    LexedAreTokens(s, 0, ts);
    LineSame(s, 0);
    assert ts + [] == ts;
    LineRead(l, []);
    FirstToken(s, ParseLine(s, 0).next);
  }

  /** Whatever is accepted is a sentence that means what was read. */
  lemma AcceptedIsSentence(s: string) returns (l: Line)
    requires ParseCmd(s).Some?
    ensures Sentence(s, l) && MeansLine(l) == Read(s, ParseCmd(s).value)
  {
    LineSame(s, 0);
    FirstToken(s, ParseLine(s, 0).next);
    TokensAfterBlank(s, ParseLine(s, 0).next, |s|);
    l := LineSpelled(Tokens(s, 0));
    assert SpellLine(l) + [] == SpellLine(l);
    TokensAreLexed(s, 0);
  }

  /** The shell reads c in s if and only if s spells a sentence that means c. */
  lemma Language(s: string, c: Tree)
    ensures (ParseCmd(s).Some? && Read(s, ParseCmd(s).value) == c)
            <==> exists l :: Sentence(s, l) && MeansLine(l) == c
  {
    if ParseCmd(s).Some? && Read(s, ParseCmd(s).value) == c {
      var l := AcceptedIsSentence(s);
    }
    forall l | Sentence(s, l) && MeansLine(l) == c
      ensures ParseCmd(s).Some? && Read(s, ParseCmd(s).value) == c
    {
      SentenceParses(s, l);
    }
  }

  // ---------- writing a sentence down ----------

  function TextOf(x: Lexeme): string {
    match x
    case Mark(c) => [c]
    case Twice => ">>"
    case Name(text) => text
  }

  /** The tokens with these gaps in front of them and one behind. */
  function Lay(ts: seq<Lexeme>, gaps: seq<string>): string
    requires |gaps| == |ts| + 1
  {
    if ts == [] then gaps[0] else gaps[0] + TextOf(ts[0]) + Lay(ts[1..], gaps[1..])
  }

  predicate AllWs(g: string) {
    forall i | 0 <= i < |g| :: IsWs(g[i])
  }

  predicate IsLexeme(x: Lexeme) {
    match x
    case Mark(c) => IsSym(c)
    case Twice => true
    case Name(text) => IsWord(text)
  }

  /** Written without a gap, these two would not be two tokens. */
  predicate Clash(x: Lexeme, y: Lexeme) {
    (x.Name? && y.Name?) || (x == Mark('>') && (y == Mark('>') || y == Twice))
  }

  predicate GapsFit(ts: seq<Lexeme>, gaps: seq<string>) {
    && |gaps| == |ts| + 1
    && (forall i | 0 <= i < |ts| :: IsLexeme(ts[i]))
    && (forall i | 0 <= i < |gaps| :: AllWs(gaps[i]))
    && (forall i | 0 < i < |ts| :: Clash(ts[i - 1], ts[i]) ==> gaps[i] != "")
  }

  /** Any gaps of white space will do, as long as tokens that would run together are kept apart. */
  lemma {:induction false} LaidIsLexed(pre: string, ts: seq<Lexeme>, gaps: seq<string>)
    requires GapsFit(ts, gaps)
    ensures Lexes(pre + Lay(ts, gaps), |pre|, ts)
    decreases |ts|
  {
    var s := pre + Lay(ts, gaps);
    if ts == [] {
      assert AllWs(gaps[0]);
    } else {
      hide GapsFit, Spells, IsLexeme, Lay, Lexes, Blank, AllWs;
      GapsTail(ts, gaps);
      var front := pre + gaps[0] + TextOf(ts[0]);
      LaidIsLexed(front, ts[1..], gaps[1..]);
      LaidParts(pre, ts, gaps);
      NextApart(ts, gaps);
      LaidSpells(s, |pre| + |gaps[0]|, |front|, ts[0]);
      LexesMore(s, |pre|, |pre| + |gaps[0]|, |front|, ts);
    }
  }

  lemma {:induction false} LexesMore(s: string, p: nat, q: nat, eq: nat, ts: seq<Lexeme>)
    requires p <= q <= eq <= |s| && ts != []
    requires Blank(s, p, q) && Spells(s, q, eq, ts[0]) && Lexes(s, eq, ts[1..])
    ensures Lexes(s, p, ts)
  {
    hide Blank, Spells;
  }

  lemma {:induction false} LaidParts(pre: string, ts: seq<Lexeme>, gaps: seq<string>)
    requires ts != [] && |gaps| == |ts| + 1 && AllWs(gaps[0])
    ensures var s := pre + Lay(ts, gaps);
            var front := pre + gaps[0] + TextOf(ts[0]);
            var q := |pre| + |gaps[0]|;
            && s == front + Lay(ts[1..], gaps[1..]) && Blank(s, |pre|, q)
            && s[q..|front|] == TextOf(ts[0]) && s[|front|..] == Lay(ts[1..], gaps[1..])
  {
    hide TextOf;
  }

  lemma {:induction false} GapsTail(ts: seq<Lexeme>, gaps: seq<string>)
    requires ts != [] && GapsFit(ts, gaps)
    ensures |gaps| == |ts| + 1 && AllWs(gaps[0]) && IsLexeme(ts[0]) && GapsFit(ts[1..], gaps[1..])
  {
    hide AllWs, IsLexeme, Clash;
  }

  /** What stands right behind a token does not lengthen it. */
  predicate Apart(x: Lexeme, s: string) {
    s == "" || ((x.Name? ==> !IsWordChar(s[0])) && (x == Mark('>') ==> s[0] != '>'))
  }

  lemma {:induction false} NextApart(ts: seq<Lexeme>, gaps: seq<string>)
    requires ts != [] && GapsFit(ts, gaps)
    ensures Apart(ts[0], Lay(ts[1..], gaps[1..]))
  {
    assert AllWs(gaps[1]);
    if |ts| > 1 && gaps[1] == "" {
      assert !Clash(ts[0], ts[1]) && IsLexeme(ts[1]);
    }
  }

  lemma LaidSpells(s: string, q: nat, eq: nat, x: Lexeme)
    requires q <= eq <= |s| && s[q..eq] == TextOf(x) && IsLexeme(x) && Apart(x, s[eq..])
    ensures Spells(s, q, eq, x)
  {
    if x.Name? {
      assert forall i | q <= i < eq :: s[i] == x.text[i - q];
    }
  }

  /** So every layout of a sentence is read as what the sentence means. */
  lemma AnySpacing(l: Line, gaps: seq<string>)
    requires FitsLine(l) && GapsFit(SpellLine(l), gaps)
    ensures var s := Lay(SpellLine(l), gaps); ParseCmd(s).Some? && Read(s, ParseCmd(s).value) == MeansLine(l)
  {
    LaidIsLexed("", SpellLine(l), gaps);
    assert "" + Lay(SpellLine(l), gaps) == Lay(SpellLine(l), gaps);
    SentenceParses(Lay(SpellLine(l), gaps), l);
  }
}
