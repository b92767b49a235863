/** A canonical printer for commands, and the parser's behaviour on single pieces of its
    output. */
module ShellPrint {
  import opened ShellGrammar

  type Tree = Cmd<string>

  predicate IsWord(w: string) {
    |w| > 0 && forall i | 0 <= i < |w| :: IsWordChar(w[i])
  }

  /** Words are words, and at most nine arguments. */
  predicate Printable(c: Tree) {
    match c
    case Exec(argv) => |argv| < MAXARGS && forall i | 0 <= i < |argv| :: IsWord(argv[i])
    case Redir(d, _, file) => Printable(d) && IsWord(file)
    case Pipe(l, r) => Printable(l) && Printable(r)
    case List(l, r) => Printable(l) && Printable(r)
    case Back(d) => Printable(d)
  }

  // ---------- the printer: parentheses where the grammar needs them ----------

  function Join(argv: seq<string>): string {
    if argv == [] then "" else if |argv| == 1 then argv[0] else argv[0] + " " + Join(argv[1..])
  }

  function Sign(m: Mode): string {
    match m
    case In => "<"
    case Out => ">"
    case App => ">>"
  }

  function PrintLine(c: Tree): string
    decreases c, 3
  {
    if c.List? then PrintBack(c.left) + ";" + PrintLine(c.right) else PrintBack(c)
  }

  function PrintBack(c: Tree): string
    decreases c, 2
  {
    if c.Back? then PrintBack(c.cmd) + "&" else PrintPipe(c)
  }

  function PrintPipe(c: Tree): string
    decreases c, 1
  {
    if c.Pipe? then PrintExec(c.left) + "|" + PrintPipe(c.right) else PrintExec(c)
  }

  function PrintExec(c: Tree): string
    decreases c, 0
  {
    match c
    case Exec(argv) => Join(argv)
    case Redir(d, m, f) => PrintExec(d) + Sign(m) + f
    case Pipe(l, r) => "(" + (PrintExec(l) + "|" + PrintPipe(r)) + ")"
    case List(l, r) => "(" + (PrintBack(l) + ";" + PrintLine(r)) + ")"
    case Back(d) => "(" + (PrintBack(d) + "&") + ")"
  }

  lemma PrintBlock(c: Tree)
    requires !c.Exec? && !c.Redir?
    ensures PrintExec(c) == "(" + PrintLine(c) + ")"
  {
    if c.Pipe? {
      assert PrintLine(c) == PrintBack(c) == PrintPipe(c);
    } else if c.Back? {
      assert PrintLine(c) == PrintBack(c);
    }
  }

  // ---------- text at a position ----------

  predicate Has(s: string, p: nat, t: string) {
    p + |t| <= |s| && s[p..p + |t|] == t
  }

  lemma HasAt(s: string, p: nat, t: string, i: nat)
    requires Has(s, p, t) && i < |t|
    ensures p + i < |s| && s[p + i] == t[i]
  {
    assert s[p..p + |t|][i] == t[i];
  }

  lemma HasSplit(s: string, p: nat, a: string, b: string)
    requires Has(s, p, a + b)
    ensures Has(s, p, a) && Has(s, p + |a|, b)
  {
    var u := s[p..p + |a + b|];
    assert u[..|a|] == a && u[|a|..] == b;
    assert s[p..p + |a|] == u[..|a|];
    assert s[p + |a|..p + |a| + |b|] == u[|a|..];
  }

  /** Position e is at the end of the input or at a symbol that ends a command. */
  predicate Ends(s: string, e: nat, follow: string) {
    e <= |s| && (e < |s| ==> s[e] in follow)
  }

  const AFTER_EXEC := "|&;)"
  const AFTER_PIPE := "&;)"
  const AFTER_BACK := "&;)"
  const AFTER_LINE := ")"

  // ---------- single tokens ----------

  lemma SymbolToken(s: string, p: nat, c: char)
    requires p < |s| && s[p] == c && IsSym(c) && c != '>'
    ensures GetToken(s, p) == Token(Sym(c), p, p + 1, SkipWs(s, p + 1))
  {}

  lemma PeekIs(s: string, p: nat, toks: string)
    requires p <= |s| && (p < |s| ==> !IsWs(s[p]))
    ensures Peek(s, p, toks) <==> p < |s| && s[p] in toks
    ensures SkipWs(s, p) == p
  {}

  lemma {:induction false} WordEndIs(s: string, p: nat, e: nat)
    requires p <= e <= |s| && (forall i | p <= i < e :: IsWordChar(s[i])) && (e < |s| ==> !IsWordChar(s[e]))
    ensures WordEnd(s, p) == e
    decreases e - p
  {
    if p < e {
      WordEndIs(s, p + 1, e);
    }
  }

  lemma WordChars(s: string, p: nat, w: string)
    requires IsWord(w) && Has(s, p, w)
    ensures p < |s| && forall i | p <= i < p + |w| :: IsWordChar(s[i])
  {
    forall i | p <= i < p + |w|
      ensures IsWordChar(s[i])
    {
      HasAt(s, p, w, i - p);
    }
    HasAt(s, p, w, 0);
  }

  lemma WordToken(s: string, p: nat, w: string)
    requires IsWord(w) && Has(s, p, w) && (p + |w| < |s| ==> !IsWordChar(s[p + |w|]))
    ensures GetToken(s, p) == Token(Word, p, p + |w|, SkipWs(s, p + |w|))
    ensures Text(s, Tok(p, p + |w|)) == w
  {
    WordChars(s, p, w);
    WordEndIs(s, p, p + |w|);
  }

  // ---------- redirections ----------

  type TextRedir = Redirection<string>

  predicate WordRedirs(rs: seq<TextRedir>) {
    forall i | 0 <= i < |rs| :: IsWord(rs[i].file)
  }

  function PrintRedirs(rs: seq<TextRedir>): string {
    if rs == [] then "" else Sign(rs[0].mode) + rs[0].file + PrintRedirs(rs[1..])
  }

  function ReadRedirs(s: string, rs: seq<Redirection<Tok>>): seq<TextRedir> {
    if rs == [] then [] else [Redirection(rs[0].mode, Text(s, rs[0].file))] + ReadRedirs(s, rs[1..])
  }

  /** A sign in front of a word. */
  lemma SignToken(s: string, p: nat, m: Mode, w: string)
    requires Has(s, p, Sign(m)) && Has(s, p + |Sign(m)|, w) && IsWord(w)
    ensures Peek(s, p, "<>")
    ensures var t := GetToken(s, p); ModeOf(t.kind) == m && t.next == p + |Sign(m)|
  {
    HasAt(s, p, Sign(m), 0);
    WordChars(s, p + |Sign(m)|, w);
    if m == App {
      HasAt(s, p, ">>", 1);
    }
  }

  /** What comes behind a redirection's file is never a word character. */
  lemma AfterFile(s: string, p: nat, rs: seq<TextRedir>, e: nat)
    requires Has(s, p, PrintRedirs(rs)) && e == p + |PrintRedirs(rs)| && Ends(s, e, AFTER_EXEC)
    ensures p < |s| ==> s[p] in "<>|&;)" && !IsWs(s[p]) && !IsWordChar(s[p])
    ensures p < |s| && rs == [] ==> s[p] in AFTER_EXEC
  {
    if rs != [] {
      var sign := Sign(rs[0].mode);
      HasAt(s, p, PrintRedirs(rs), 0);
      assert PrintRedirs(rs)[0] == sign[0];
    }
  }

  lemma {:induction false} RedirsTrip(s: string, p: nat, rs: seq<TextRedir>)
    requires WordRedirs(rs) && Has(s, p, PrintRedirs(rs)) && Ends(s, p + |PrintRedirs(rs)|, AFTER_EXEC)
    ensures var r := Redirs(s, p); r.Ok? && r.next == p + |PrintRedirs(rs)| && ReadRedirs(s, r.value) == rs
    decreases |rs|
  {
    hide *;
    if rs == [] {
      NoRedirs(s, p, rs);
    } else {
      var sign, file, rest := Sign(rs[0].mode), rs[0].file, rs[1..];
      var q, e := p + |sign| + |file|, p + |PrintRedirs(rs)|;
      Unfold(s, p, rs);
      FirstRedir(s, p, rs[0].mode, file, rest, q, e);
      RedirsTrip(s, q, rest);
      OneMore(s, Redirection(rs[0].mode, Tok(p + |sign|, q)), Redirs(s, q).value);
    }
  }

  lemma NoRedirs(s: string, p: nat, rs: seq<TextRedir>)
    requires rs == [] && Has(s, p, PrintRedirs(rs)) && Ends(s, p + |PrintRedirs(rs)|, AFTER_EXEC)
    ensures Redirs(s, p) == Ok([], p) && p == p + |PrintRedirs(rs)| && ReadRedirs(s, []) == []
  {
    AfterFile(s, p, rs, p);
    PeekIs(s, p, "<>");
  }

  /** The first redirection and the others. */
  lemma Unfold(s: string, p: nat, rs: seq<TextRedir>)
    requires rs != [] && WordRedirs(rs) && Has(s, p, PrintRedirs(rs))
    ensures var sign, file, rest := Sign(rs[0].mode), rs[0].file, rs[1..];
            && IsWord(file) && WordRedirs(rest) && Has(s, p, sign) && Has(s, p + |sign|, file)
            && Has(s, p + |sign| + |file|, PrintRedirs(rest))
            && |PrintRedirs(rs)| == |sign| + |file| + |PrintRedirs(rest)| && p + |PrintRedirs(rs)| <= |s|
  {
    var sign, file, rest := Sign(rs[0].mode), rs[0].file, rs[1..];
    HasSplit(s, p, sign + file, PrintRedirs(rest));
    HasSplit(s, p, sign, file);
  }

  lemma InInput(s: string, q: nat, rest: seq<TextRedir>, e: nat)
    requires Has(s, q, PrintRedirs(rest)) && e == q + |PrintRedirs(rest)|
    ensures q <= e <= |s|
  {}

  lemma FirstRedir(s: string, p: nat, m: Mode, file: string, rest: seq<TextRedir>, q: nat, e: nat)
    requires Has(s, p, Sign(m)) && Has(s, p + |Sign(m)|, file) && IsWord(file) && q == p + |Sign(m)| + |file|
    requires Has(s, q, PrintRedirs(rest)) && e == q + |PrintRedirs(rest)| && Ends(s, e, AFTER_EXEC)
    ensures Redirs(s, q).Ok? ==>
              Redirs(s, p) == Ok([Redirection(m, Tok(p + |Sign(m)|, q))] + Redirs(s, q).value, Redirs(s, q).next)
    ensures Text(s, Tok(p + |Sign(m)|, q)) == file
  {
    hide *;
    SignToken(s, p, m, file);
    InInput(s, q, rest, e);
    AfterFile(s, q, rest, e);
    WordToken(s, p + |Sign(m)|, file);
    PeekIs(s, q, "");
    if Redirs(s, q).Ok? {
      RedirsStep(s, p, m, Tok(p + |Sign(m)|, q), q);
    }
  }

  lemma RedirsStep(s: string, p: nat, m: Mode, file: Tok, q: nat)
    requires p <= |s| && Peek(s, p, "<>") && ModeOf(GetToken(s, p).kind) == m
    requires var f := GetToken(s, GetToken(s, p).next); f.kind == Word && Tok(f.q, f.eq) == file && f.next == q
    requires Redirs(s, q).Ok?
    ensures Redirs(s, p) == Ok([Redirection(m, file)] + Redirs(s, q).value, Redirs(s, q).next)
  {}

  lemma OneMore(s: string, r: Redirection<Tok>, rs: seq<Redirection<Tok>>)
    ensures ReadRedirs(s, [r] + rs) == [Redirection(r.mode, Text(s, r.file))] + ReadRedirs(s, rs)
  {
    assert ([r] + rs)[1..] == rs;
  }

  lemma {:induction false} ReadRedirsAppend(s: string, a: seq<Redirection<Tok>>, b: seq<Redirection<Tok>>)
    ensures ReadRedirs(s, a + b) == ReadRedirs(s, a) + ReadRedirs(s, b)
    decreases |a|
  {
    if a == [] {
      assert a + b == b;
    } else {
      assert (a + b)[1..] == a[1..] + b;
      ReadRedirsAppend(s, a[1..], b);
    }
  }

  lemma {:induction false} ReadWrap(s: string, c: Parsed, rs: seq<Redirection<Tok>>)
    ensures Read(s, Wrap(c, rs)) == Wrap(Read(s, c), ReadRedirs(s, rs))
    decreases |rs|
  {
    if rs != [] {
      var n := |rs| - 1;
      ReadWrap(s, c, rs[..n]);
      assert rs == rs[..n] + [rs[n]];
      ReadRedirsAppend(s, rs[..n], [rs[n]]);
      var r := ReadRedirs(s, rs);
      assert r == ReadRedirs(s, rs[..n]) + [Redirection(rs[n].mode, Text(s, rs[n].file))];
      assert r[..|r| - 1] == ReadRedirs(s, rs[..n]);
    }
  }
}
