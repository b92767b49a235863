/** Parsing what the printer prints gives the command back. */
module ShellRoundTrip {
  import opened Options
  import opened ShellGrammar
  import opened ShellPrint

  // ---------- printed text never starts with white space ----------

  predicate Clean(t: string) {
    t == "" || !IsWs(t[0])
  }

  lemma CleanAppend(a: string, b: string)
    requires Clean(a) && Clean(b)
    ensures Clean(a + b)
  {}

  lemma CleanJoin(argv: seq<string>)
    requires forall i | 0 <= i < |argv| :: IsWord(argv[i])
    ensures Clean(Join(argv))
  {
    if argv != [] {
      assert IsWord(argv[0]);
      assert Join(argv)[0] == argv[0][0];
    }
  }

  lemma {:induction false} CleanExec(c: Tree)
    requires Printable(c)
    ensures Clean(PrintExec(c))
  {
    match c
    case Exec(argv) => CleanJoin(argv);
    case Redir(d, m, f) =>
      CleanExec(d);
      assert Clean(Sign(m) + f);
      CleanAppend(PrintExec(d), Sign(m) + f);
      assert PrintExec(c) == PrintExec(d) + (Sign(m) + f);
    case _ =>
  }

  lemma {:induction false} CleanPipe(c: Tree)
    requires Printable(c)
    ensures Clean(PrintPipe(c))
  {
    if c.Pipe? {
      CleanExec(c.left);
      CleanAppend(PrintExec(c.left), "|" + PrintPipe(c.right));
      assert PrintPipe(c) == PrintExec(c.left) + ("|" + PrintPipe(c.right));
    } else {
      CleanExec(c);
    }
  }

  lemma {:induction false} CleanBack(c: Tree)
    requires Printable(c)
    ensures Clean(PrintBack(c))
  {
    if c.Back? {
      CleanBack(c.cmd);
      CleanAppend(PrintBack(c.cmd), "&");
    } else {
      CleanPipe(c);
    }
  }

  lemma {:induction false} CleanLine(c: Tree)
    requires Printable(c)
    ensures Clean(PrintLine(c))
  {
    if c.List? {
      CleanBack(c.left);
      CleanAppend(PrintBack(c.left), ";" + PrintLine(c.right));
      assert PrintLine(c) == PrintBack(c.left) + (";" + PrintLine(c.right));
    } else {
      CleanBack(c);
    }
  }

  lemma CleanAt(s: string, p: nat, t: string, follow: string)
    requires Clean(t) && Has(s, p, t) && Ends(s, p + |t|, follow) && (forall c | c in follow :: IsSym(c))
    ensures SkipWs(s, p) == p && (p < |s| ==> !IsWs(s[p]))
  {
    if t != "" {
      HasAt(s, p, t, 0);
    }
  }

  // ---------- a simple command ----------

  lemma ArgsStep(s: string, p: nat, x: Simple)
    requires p <= |s| && !Peek(s, p, "|)&;") && GetToken(s, p).kind == Word && |x.argv| + 1 < MAXARGS
    requires Redirs(s, GetToken(s, p).next).Ok?
    ensures var t := GetToken(s, p);
            var rs := Redirs(s, t.next);
            Args(s, p, x) == Args(s, rs.next, Simple(x.argv + [Tok(t.q, t.eq)], x.redirs + rs.value))
  {}

  lemma ArgsEnd(s: string, e: nat, x: Simple)
    requires Ends(s, e, AFTER_EXEC)
    ensures Args(s, e, x) == Ok(x, e)
  {
    PeekIs(s, e, "|)&;");
  }

  lemma NoRedirHere(s: string, p: nat, w: string)
    requires IsWord(w) && Has(s, p, w)
    ensures Redirs(s, p) == Ok([], p) && !Peek(s, p, "|)&;") && !Peek(s, p, "(") && SkipWs(s, p) == p
  {
    WordChars(s, p, w);
  }

  lemma TextsAppend(s: string, a: seq<Tok>, t: Tok)
    ensures Texts(s, a + [t]) == Texts(s, a) + [Text(s, t)]
  {}

  /** The last argument and the redirections behind it. */
  lemma LastArg(s: string, p: nat, a: string, rs: seq<TextRedir>, x: Simple)
    requires IsWord(a) && Has(s, p, a) && |x.argv| + 1 < MAXARGS
    requires WordRedirs(rs) && Has(s, p + |a|, PrintRedirs(rs)) && Ends(s, p + |a| + |PrintRedirs(rs)|, AFTER_EXEC)
    ensures var r := Args(s, p, x);
            && r.Ok? && r.next == p + |a| + |PrintRedirs(rs)|
            && Texts(s, r.value.argv) == Texts(s, x.argv) + [a]
            && ReadRedirs(s, r.value.redirs) == ReadRedirs(s, x.redirs) + rs
  {
    var q := p + |a|;
    var e := q + |PrintRedirs(rs)|;
    hide *;
    NoRedirHere(s, p, a);
    AfterFile(s, q, rs, e);
    HasBound(s, q, PrintRedirs(rs));
    WordToken(s, p, a);
    PeekIs(s, q, "");
    RedirsTrip(s, q, rs);
    HasBound(s, p, a);
    ArgsStep(s, p, x);
    var rr := Redirs(s, q);
    var y := Simple(x.argv + [Tok(p, q)], x.redirs + rr.value);
    ArgsEnd(s, e, y);
    TextsAppend(s, x.argv, Tok(p, q));
    ReadRedirsAppend(s, x.redirs, rr.value);
  }

  lemma HasBound(s: string, p: nat, t: string)
    requires Has(s, p, t)
    ensures p + |t| <= |s|
  {}

  predicate Words(args: seq<string>) {
    forall i | 0 <= i < |args| :: IsWord(args[i])
  }

  /** One argument in front of others. */
  lemma FirstArg(s: string, p: nat, args: seq<string>, x: Simple)
    requires |args| >= 2 && Words(args) && Has(s, p, Join(args)) && |x.argv| + 1 < MAXARGS
    ensures var q := p + |args[0]|;
            && |Join(args)| == |args[0]| + 1 + |Join(args[1..])| && Has(s, q + 1, Join(args[1..])) && q <= |s|
            && p <= |s| && q + 1 <= |s|
            && Args(s, p, x) == Args(s, q + 1, Simple(x.argv + [Tok(p, q)], x.redirs))
            && Text(s, Tok(p, q)) == args[0]
  {
    var a, rest := args[0], args[1..];
    var q := p + |a|;
    assert Join(args) == a + (" " + Join(rest));
    HasSplit(s, p, a, " " + Join(rest));
    HasSplit(s, q, " ", Join(rest));
    HasAt(s, q, " ", 0);
    NextWord(s, q + 1, rest);
    NoRedirHere(s, p, a);
    WordToken(s, p, a);
    assert SkipWs(s, q) == SkipWs(s, q + 1);
    ArgsStep(s, p, x);
    assert x.redirs + [] == x.redirs;
  }

  lemma NextWord(s: string, p: nat, args: seq<string>)
    requires args != [] && Words(args) && Has(s, p, Join(args))
    ensures Redirs(s, p) == Ok([], p) && SkipWs(s, p) == p && !Peek(s, p, "(")
  {
    assert Join(args) == args[0] + (if |args| == 1 then "" else " " + Join(args[1..]));
    HasSplit(s, p, args[0], if |args| == 1 then "" else " " + Join(args[1..]));
    NoRedirHere(s, p, args[0]);
  }

  lemma {:induction false} ArgsTrip(s: string, p: nat, args: seq<string>, rs: seq<TextRedir>, x: Simple)
    requires args != [] && Words(args) && |x.argv| + |args| < MAXARGS && Has(s, p, Join(args))
    requires WordRedirs(rs) && Has(s, p + |Join(args)|, PrintRedirs(rs))
             && Ends(s, p + |Join(args)| + |PrintRedirs(rs)|, AFTER_EXEC)
    ensures p <= |s|
    ensures var r := Args(s, p, x);
            && r.Ok? && r.next == p + |Join(args)| + |PrintRedirs(rs)|
            && Texts(s, r.value.argv) == Texts(s, x.argv) + args
            && ReadRedirs(s, r.value.redirs) == ReadRedirs(s, x.redirs) + rs
    decreases |args|
  {
    hide *;
    HasBound(s, p, Join(args));
    if |args| == 1 {
      OneWord(args);
      LastArg(s, p, args[0], rs, x);
      assert args == [args[0]];
    } else {
      FirstArg(s, p, args, x);
      var q := p + |args[0]|;
      var y := Simple(x.argv + [Tok(p, q)], x.redirs);
      TailWords(args);
      ArgsTrip(s, q + 1, args[1..], rs, y);
      TextsAppend(s, x.argv, Tok(p, q));
      assert args == [args[0]] + args[1..];
    }
  }

  lemma OneWord(args: seq<string>)
    requires |args| == 1 && Words(args)
    ensures Join(args) == args[0] && IsWord(args[0])
  {}

  lemma TailWords(args: seq<string>)
    requires args != [] && Words(args)
    ensures Words(args[1..])
  {}

  lemma ExecIs(s: string, p: nat)
    requires p <= |s| && !Peek(s, p, "(") && Redirs(s, p).Ok?
             && Args(s, Redirs(s, p).next, Simple([], Redirs(s, p).value)).Ok?
    ensures var x := Args(s, Redirs(s, p).next, Simple([], Redirs(s, p).value));
            ParseExec(s, p) == Ok(Wrap(Exec(x.value.argv), x.value.redirs), x.next)
  {}

  /** Arguments and redirections without parentheses. */
  lemma SimpleTrip(s: string, p: nat, args: seq<string>, rs: seq<TextRedir>)
    requires Words(args) && |args| < MAXARGS && Has(s, p, Join(args))
    requires WordRedirs(rs) && Has(s, p + |Join(args)|, PrintRedirs(rs))
             && Ends(s, p + |Join(args)| + |PrintRedirs(rs)|, AFTER_EXEC)
    ensures p <= |s|
    ensures var r := ParseExec(s, p);
            r.Ok? && r.next == p + |Join(args)| + |PrintRedirs(rs)| && Read(s, r.value) == Wrap(Exec(args), rs)
  {
    hide *;
    HasBound(s, p, Join(args));
    var x: Simple;
    if args == [] {
      NoWords(args);
      var e := p + |PrintRedirs(rs)|;
      NotAParen(s, p, rs, e);
      RedirsTrip(s, p, rs);
      x := Simple([], Redirs(s, p).value);
      ArgsEnd(s, e, x);
      ExecIs(s, p);
    } else {
      NextWord(s, p, args);
      ArgsTrip(s, p, args, rs, Simple([], []));
      ExecIs(s, p);
      x := Args(s, p, Simple([], [])).value;
      EmptyTexts(s);
    }
    EmptyTexts(s);
    ReadWrap(s, Exec(x.argv), x.redirs);
    ReadExec(s, x.argv);
  }

  lemma NoWords(args: seq<string>)
    requires args == []
    ensures Join(args) == "" && |Join(args)| == 0
  {}

  lemma EmptyTexts(s: string)
    ensures Texts(s, []) == [] && ReadRedirs(s, []) == []
    ensures forall a: seq<string> :: [] + a == a
    ensures forall a: seq<TextRedir> :: [] + a == a
  {}

  lemma ReadExec(s: string, argv: seq<Tok>)
    ensures Read(s, Exec(argv)) == Exec(Texts(s, argv))
  {}

  lemma NotAParen(s: string, p: nat, rs: seq<TextRedir>, e: nat)
    requires Has(s, p, PrintRedirs(rs)) && e == p + |PrintRedirs(rs)| && Ends(s, e, AFTER_EXEC)
    ensures p <= |s| && !Peek(s, p, "(") && SkipWs(s, p) == p
  {
    AfterFile(s, p, rs, e);
    PeekIs(s, p, "(");
  }

  // ---------- a command and its redirections ----------

  function Core(c: Tree): (d: Tree)
    ensures !d.Redir? && (d == c || d < c)
  {
    if c.Redir? then Core(c.cmd) else c
  }

  function RedirsOf(c: Tree): seq<TextRedir> {
    if c.Redir? then RedirsOf(c.cmd) + [Redirection(c.mode, c.file)] else []
  }

  lemma {:induction false} PrintRedirsAppend(rs: seq<TextRedir>, r: TextRedir)
    ensures PrintRedirs(rs + [r]) == PrintRedirs(rs) + (Sign(r.mode) + r.file)
    decreases |rs|
  {
    if rs == [] {
      assert rs + [r] == [r];
    } else {
      assert (rs + [r])[1..] == rs[1..] + [r];
      PrintRedirsAppend(rs[1..], r);
    }
  }

  lemma {:induction false} CoreIs(c: Tree)
    requires Printable(c)
    ensures Wrap(Core(c), RedirsOf(c)) == c && Printable(Core(c)) && WordRedirs(RedirsOf(c))
    ensures PrintExec(c) == PrintExec(Core(c)) + PrintRedirs(RedirsOf(c))
  {
    hide Wrap, PrintRedirs, Sign, IsWord;
    if c.Redir? {
      CoreIs(c.cmd);
      var rs, r := RedirsOf(c.cmd), Redirection(c.mode, c.file);
      PrintRedirsAppend(rs, r);
      WrapMore(Core(c), rs, r);
      var a, b, z := PrintExec(Core(c)), PrintRedirs(rs), Sign(c.mode) + c.file;
      assert PrintExec(c) == PrintExec(c.cmd) + z;
      assert (a + b) + z == a + (b + z);
    } else {
      WrapNone(c);
    }
  }

  lemma WrapMore(c: Tree, rs: seq<TextRedir>, r: TextRedir)
    ensures Wrap(c, rs + [r]) == Redir(Wrap(c, rs), r.mode, r.file)
  {
    var all := rs + [r];
    assert all[..|all| - 1] == rs;
  }

  lemma WrapNone(c: Tree)
    ensures Wrap(c, []) == c && PrintRedirs([]) == "" && forall t: string :: t + "" == t
  {}

  // ---------- whole commands, by the printer's own recursion ----------

  datatype Level = Line | Backed | Piped | Execd

  function Rank(c: Tree, level: Level): nat {
    match level
    case Line => if c.List? then 0 else if c.Back? then 1 else if c.Pipe? then 2 else 6
    case Backed => if c.Back? then 0 else if c.Pipe? then 1 else 5
    case Piped => if c.Pipe? then 0 else 4
    case Execd => 3
  }

  /** How the parser sees a symbol between two printed pieces. */
  lemma Between(s: string, e: nat, sym: char, t: string, follow: string)
    requires IsSym(sym) && sym != '>' && e <= |s| && Has(s, e, [sym] + t) && Clean(t)
    requires Ends(s, e + 1 + |t|, follow) && (forall c | c in follow :: IsSym(c))
    ensures Has(s, e + 1, t) && e < |s| && s[e] == sym && SkipWs(s, e) == e
    ensures GetToken(s, e).next == e + 1 && Peek(s, e, [sym])
  {
    hide *;
    HasSplit(s, e, [sym], t);
    HasAt(s, e, [sym], 0);
    SymbolToken(s, e, sym);
    CleanAt(s, e + 1, t, follow);
    SymNotWs(sym);
    PeekIs(s, e, [sym]);
  }

  lemma SymNotWs(c: char)
    requires IsSym(c)
    ensures !IsWs(c)
  {}

  lemma EndsNot(s: string, e: nat, follow: string, toks: string)
    requires Ends(s, e, follow) && (forall c | c in follow :: IsSym(c) && c !in toks)
    ensures !Peek(s, e, toks) && SkipWs(s, e) == e
  {
    PeekIs(s, e, toks);
  }

  lemma {:induction false} ExecTrip(s: string, p: nat, c: Tree)
    requires Printable(c) && Has(s, p, PrintExec(c)) && Ends(s, p + |PrintExec(c)|, AFTER_EXEC)
    ensures p <= |s| && ParseExec(s, p).Ok? && ParseExec(s, p).next == p + |PrintExec(c)|
            && Read(s, ParseExec(s, p).value) == c
    decreases c, Rank(c, Execd)
  {
    hide *;
    CoreIs(c);
    var core, rs := Core(c), RedirsOf(c);
    HasBound(s, p, PrintExec(c));
    HasSplit(s, p, PrintExec(core), PrintRedirs(rs));
    if core.Exec? {
      ExecShape(core);
      SimpleTrip(s, p, core.argv, rs);
    } else {
      RankDrops(c);
      PrintBlock(core);
      BlockOpens(s, p, core);
      var e := p + 1 + |PrintLine(core)|;
      LineTrip(s, p + 1, core);
      BlockCloses(s, e, rs);
      RedirsTrip(s, e + 1, rs);
      BlockIs(s, p, e);
      ReadWrap(s, ParseLine(s, p + 1).value, Redirs(s, e + 1).value);
    }
  }

  lemma ExecShape(c: Tree)
    requires c.Exec? && Printable(c)
    ensures PrintExec(c) == Join(c.argv) && Words(c.argv) && |c.argv| < MAXARGS && c == Exec(c.argv)
  {}

  lemma RankDrops(c: Tree)
    requires !Core(c).Exec?
    ensures !Core(c).Redir?
    ensures Core(c) < c || (Core(c) == c && Rank(c, Line) < Rank(c, Execd))
  {}

  lemma BlockOpens(s: string, p: nat, c: Tree)
    requires Printable(c) && Has(s, p, "(" + PrintLine(c) + ")")
    ensures var e := p + 1 + |PrintLine(c)|;
            && Has(s, p + 1, PrintLine(c)) && e < |s| && s[e] == ')' && Ends(s, e, AFTER_LINE)
            && Peek(s, p, "(") && GetToken(s, p).next == p + 1
            && |"(" + PrintLine(c) + ")"| == |PrintLine(c)| + 2
  {
    var t := PrintLine(c);
    assert "(" + t + ")" == "(" + (t + ")");
    HasSplit(s, p, "(", t + ")");
    HasSplit(s, p + 1, t, ")");
    HasAt(s, p, "(", 0);
    HasAt(s, p + 1 + |t|, ")", 0);
    CleanLine(c);
    CleanAt(s, p + 1, t, AFTER_LINE);
    SymbolToken(s, p, '(');
  }

  lemma BlockCloses(s: string, e: nat, rs: seq<TextRedir>)
    requires e < |s| && s[e] == ')' && Has(s, e + 1, PrintRedirs(rs)) && Ends(s, e + 1 + |PrintRedirs(rs)|, AFTER_EXEC)
    ensures Peek(s, e, ")") && GetToken(s, e).next == e + 1
  {
    SymbolToken(s, e, ')');
    AfterFile(s, e + 1, rs, e + 1 + |PrintRedirs(rs)|);
  }

  lemma BlockIs(s: string, p: nat, e: nat)
    requires p < |s| && e < |s| && Peek(s, p, "(") && GetToken(s, p).next == p + 1
    requires ParseLine(s, p + 1).Ok? && ParseLine(s, p + 1).next == e && Peek(s, e, ")") && GetToken(s, e).next == e + 1
    requires Redirs(s, e + 1).Ok?
    ensures ParseExec(s, p) == Ok(Wrap(ParseLine(s, p + 1).value, Redirs(s, e + 1).value), Redirs(s, e + 1).next)
  {
    hide Peek, GetToken, Redirs, Wrap, ParseLine, Args;
  }

  lemma {:induction false} PipeTrip(s: string, p: nat, c: Tree)
    requires Printable(c) && Has(s, p, PrintPipe(c)) && Ends(s, p + |PrintPipe(c)|, AFTER_PIPE)
    ensures p <= |s| && ParsePipe(s, p).Ok? && ParsePipe(s, p).next == p + |PrintPipe(c)|
            && Read(s, ParsePipe(s, p).value) == c
    decreases c, Rank(c, Piped)
  {
    hide *;
    HasBound(s, p, PrintPipe(c));
    PipeShape(s, p, c);
    if c.Pipe? {
      var e := p + |PrintExec(c.left)|;
      ExecTrip(s, p, c.left);
      PipeTrip(s, e + 1, c.right);
      PipeMore(s, p, e);
      ReadPair(s, ParseExec(s, p).value, ParsePipe(s, e + 1).value);
    } else {
      ExecTrip(s, p, c);
      PipeEnd(s, p);
    }
  }

  /** What a printed pipeline is made of, and where its parts are. */
  lemma PipeShape(s: string, p: nat, c: Tree)
    requires Printable(c) && Has(s, p, PrintPipe(c)) && Ends(s, p + |PrintPipe(c)|, AFTER_PIPE)
    ensures c.Pipe? ==>
              var e := p + |PrintExec(c.left)|;
              && |PrintPipe(c)| == |PrintExec(c.left)| + 1 + |PrintPipe(c.right)| && Printable(c.left)
              && Printable(c.right)
              && Has(s, p, PrintExec(c.left)) && Has(s, e + 1, PrintPipe(c.right)) && Ends(s, e, AFTER_EXEC) && e < |s|
              && Peek(s, e, "|") && GetToken(s, e).next == e + 1 && c == Pipe(c.left, c.right) && c.left < c
              && c.right < c
    ensures !c.Pipe? ==> PrintPipe(c) == PrintExec(c) && Rank(c, Execd) < Rank(c, Piped)
                         && Ends(s, p + |PrintExec(c)|, AFTER_EXEC) && !Peek(s, p + |PrintExec(c)|, "|")
                         && SkipWs(s, p + |PrintExec(c)|) == p + |PrintExec(c)|
  {
    hide Has, Peek, GetToken, SkipWs, Clean, PrintExec, PrintBack, PrintLine;
    if c.Pipe? {
      var l, r := PrintExec(c.left), PrintPipe(c.right);
      assert PrintPipe(c) == l + ("|" + r);
      HasSplit(s, p, l, "|" + r);
      CleanPipe(c.right);
      Between(s, p + |l|, '|', r, AFTER_PIPE);
    } else {
      EndsNot(s, p + |PrintExec(c)|, AFTER_PIPE, "|");
    }
  }

  lemma PipeMore(s: string, p: nat, e: nat)
    requires p <= |s| && e < |s| && ParseExec(s, p).Ok? && ParseExec(s, p).next == e && Peek(s, e, "|")
             && GetToken(s, e).next == e + 1
    requires ParsePipe(s, e + 1).Ok?
    ensures ParsePipe(s, p) == Ok(Pipe(ParseExec(s, p).value, ParsePipe(s, e + 1).value), ParsePipe(s, e + 1).next)
  {
    hide GetToken, Peek, SkipWs, ParseExec, Redirs, Args;
  }

  lemma PipeEnd(s: string, p: nat)
    requires p <= |s| && ParseExec(s, p).Ok? && !Peek(s, ParseExec(s, p).next, "|")
             && SkipWs(s, ParseExec(s, p).next) == ParseExec(s, p).next
    ensures ParsePipe(s, p) == ParseExec(s, p)
  {
    hide GetToken, Peek, SkipWs, ParseExec, Redirs, Args;
  }

  lemma ReadPair(s: string, l: Parsed, r: Parsed)
    ensures Read(s, Pipe(l, r)) == Pipe(Read(s, l), Read(s, r))
    ensures Read(s, List(l, r)) == List(Read(s, l), Read(s, r))
    ensures Read(s, Back(l)) == Back(Read(s, l))
  {}

  /** The pipeline, with as many & behind it as the command has. */
  lemma {:induction false} BackTrip(s: string, p: nat, c: Tree) returns (t: Parsed)
    requires Printable(c) && Has(s, p, PrintBack(c)) && Ends(s, p + |PrintBack(c)|, AFTER_BACK)
    ensures p <= |s| && p + |PrintBack(c)| <= |s| && ParsePipe(s, p).Ok? && Read(s, t) == c
    ensures Backs(s, ParsePipe(s, p).next, ParsePipe(s, p).value) == Backs(s, p + |PrintBack(c)|, t)
    decreases c, Rank(c, Backed)
  {
    hide *;
    HasBound(s, p, PrintBack(c));
    BackShape(s, p, c);
    if c.Back? {
      var e := p + |PrintBack(c.cmd)|;
      var u := BackTrip(s, p, c.cmd);
      BackMore(s, e, u);
      ReadPair(s, u, u);
      t := Back(u);
    } else {
      PipeTrip(s, p, c);
      t := ParsePipe(s, p).value;
    }
  }

  lemma BackShape(s: string, p: nat, c: Tree)
    requires Printable(c) && Has(s, p, PrintBack(c)) && Ends(s, p + |PrintBack(c)|, AFTER_BACK)
    ensures c.Back? ==>
              var e := p + |PrintBack(c.cmd)|;
              && |PrintBack(c)| == |PrintBack(c.cmd)| + 1 && Printable(c.cmd) && Has(s, p, PrintBack(c.cmd))
              && Ends(s, e, AFTER_BACK)
              && e < |s| && Peek(s, e, "&") && GetToken(s, e).next == e + 1 && c == Back(c.cmd) && c.cmd < c
    ensures !c.Back?
            ==> PrintBack(c) == PrintPipe(c) && Rank(c, Piped) < Rank(c, Backed)
                && Ends(s, p + |PrintPipe(c)|, AFTER_PIPE)
  {
    hide Has, Peek, GetToken, SkipWs, PrintExec, PrintPipe, PrintLine;
    if c.Back? {
      var l := PrintBack(c.cmd);
      HasSplit(s, p, l, "&");
      assert "&" == "&" + "";
      Between(s, p + |l|, '&', "", AFTER_BACK);
    }
  }

  lemma BackMore(s: string, e: nat, u: Parsed)
    requires e < |s| && Peek(s, e, "&") && GetToken(s, e).next == e + 1
    ensures Backs(s, e, u) == Backs(s, e + 1, Back(u))
  {}

  lemma {:induction false} LineTrip(s: string, p: nat, c: Tree)
    requires Printable(c) && Has(s, p, PrintLine(c)) && Ends(s, p + |PrintLine(c)|, AFTER_LINE)
    ensures p <= |s| && ParseLine(s, p).Ok? && ParseLine(s, p).next == p + |PrintLine(c)|
            && Read(s, ParseLine(s, p).value) == c
    decreases c, Rank(c, Line)
  {
    hide *;
    HasBound(s, p, PrintLine(c));
    LineShape(s, p, c);
    if c.List? {
      var e := p + |PrintBack(c.left)|;
      var t := BackTrip(s, p, c.left);
      LineTrip(s, e + 1, c.right);
      LineMore(s, p, e, t);
      ReadPair(s, t, ParseLine(s, e + 1).value);
    } else {
      var t := BackTrip(s, p, c);
      LineEnd(s, p, p + |PrintBack(c)|, t);
    }
  }

  lemma LineShape(s: string, p: nat, c: Tree)
    requires Printable(c) && Has(s, p, PrintLine(c)) && Ends(s, p + |PrintLine(c)|, AFTER_LINE)
    ensures c.List? ==>
              var e := p + |PrintBack(c.left)|;
              && |PrintLine(c)| == |PrintBack(c.left)| + 1 + |PrintLine(c.right)| && Printable(c.left)
              && Printable(c.right)
              && Has(s, p, PrintBack(c.left)) && Has(s, e + 1, PrintLine(c.right)) && Ends(s, e, AFTER_BACK) && e < |s|
              && !Peek(s, e, "&") && Peek(s, e, ";") && GetToken(s, e).next == e + 1 && SkipWs(s, e) == e
              && c == List(c.left, c.right) && c.left < c && c.right < c
    ensures !c.List? ==>
              var e := p + |PrintBack(c)|;
              && PrintLine(c) == PrintBack(c) && Rank(c, Backed) < Rank(c, Line) && Ends(s, e, AFTER_BACK)
              && !Peek(s, e, "&") && !Peek(s, e, ";") && SkipWs(s, e) == e
  {
    hide Has, Peek, GetToken, SkipWs, Clean, PrintExec, PrintBack, PrintPipe;
    if c.List? {
      var l, r := PrintBack(c.left), PrintLine(c.right);
      assert PrintLine(c) == l + (";" + r);
      HasSplit(s, p, l, ";" + r);
      CleanLine(c.right);
      Between(s, p + |l|, ';', r, AFTER_LINE);
      PeekIs(s, p + |l|, "&");
    } else {
      EndsNot(s, p + |PrintBack(c)|, AFTER_LINE, "&");
      EndsNot(s, p + |PrintBack(c)|, AFTER_LINE, ";");
    }
  }

  lemma LineMore(s: string, p: nat, e: nat, t: Parsed)
    requires p <= |s| && e < |s| && ParsePipe(s, p).Ok?
             && Backs(s, ParsePipe(s, p).next, ParsePipe(s, p).value) == Backs(s, e, t)
    requires !Peek(s, e, "&") && Peek(s, e, ";") && GetToken(s, e).next == e + 1 && SkipWs(s, e) == e
             && ParseLine(s, e + 1).Ok?
    ensures ParseLine(s, p) == Ok(List(t, ParseLine(s, e + 1).value), ParseLine(s, e + 1).next)
  {
    hide GetToken, Peek, SkipWs, ParsePipe, Redirs, Args;
  }

  lemma LineEnd(s: string, p: nat, e: nat, t: Parsed)
    requires p <= |s| && e <= |s| && ParsePipe(s, p).Ok?
             && Backs(s, ParsePipe(s, p).next, ParsePipe(s, p).value) == Backs(s, e, t)
    requires !Peek(s, e, "&") && !Peek(s, e, ";") && SkipWs(s, e) == e
    ensures ParseLine(s, p) == Ok(t, e)
  {
    hide GetToken, Peek, SkipWs, ParsePipe, Redirs, Args;
  }

  /** Round trip: parsing the printed form of any command with at most nine arguments per
      command gives that command, and uses up all of the input. */
  lemma RoundTrip(c: Tree)
    requires Printable(c)
    ensures ParseCmd(PrintLine(c)).Some? && Read(PrintLine(c), ParseCmd(PrintLine(c)).value) == c
  {
    var s := PrintLine(c);
    assert s[0..|s|] == s;
    LineTrip(s, 0, c);
  }

  // ---------- accepted inputs ----------

  lemma {:induction false} ReadPrintable(s: string, c: Parsed)
    requires ToksOk(s, c)
    ensures Printable(Read(s, c))
  {
    match c
    case Exec(argv) =>
      forall i | 0 <= i < |argv|
        ensures IsWord(Texts(s, argv)[i])
      {
        TokText(s, argv[i]);
      }
    case Redir(d, _, file) =>
      ReadPrintable(s, d);
      TokText(s, file);
    case Pipe(l, r) =>
      ReadPrintable(s, l);
      ReadPrintable(s, r);
    case List(l, r) =>
      ReadPrintable(s, l);
      ReadPrintable(s, r);
    case Back(d) => ReadPrintable(s, d);
  }

  lemma TokText(s: string, t: Tok)
    requires IsTok(s, t)
    ensures IsWord(Text(s, t))
  {
    forall i | 0 <= i < t.eq - t.q
      ensures IsWordChar(s[t.q..t.eq][i])
    {}
  }

  /** Every accepted input means what its printed form means. */
  lemma PrintedMeansTheSame(s: string)
    requires ParseCmd(s).Some?
    ensures var c := Read(s, ParseCmd(s).value);
            ParseCmd(PrintLine(c)).Some? && Read(PrintLine(c), ParseCmd(PrintLine(c)).value) == c
  {
    AcceptedOk(s);
    ReadPrintable(s, ParseCmd(s).value);
    RoundTrip(Read(s, ParseCmd(s).value));
  }
}
