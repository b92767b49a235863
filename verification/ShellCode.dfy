/** The shell's parser as it runs: a shared cursor over a character buffer, loops that collect
    arguments, and NUL characters written into the buffer at the end. */
module ShellCode {
  import opened Options
  import opened ShellGrammar

  const NUL := '\0'

  predicate NoNul(s: string) {
    forall i | 0 <= i < |s| :: s[i] != NUL
  }

  // ---------- C strings ----------

  function CString(b: seq<char>, q: nat): string
    decreases |b| - q
  {
    if q >= |b| || b[q] == NUL then "" else [b[q]] + CString(b, q + 1)
  }

  lemma {:induction false} CStringIs(b: seq<char>, q: nat, e: nat)
    requires q <= e < |b| && b[e] == NUL && (forall i | q <= i < e :: b[i] != NUL)
    ensures CString(b, q) == b[q..e]
    decreases e - q
  {
    if q < e {
      CStringIs(b, q + 1, e);
    }
  }

  // ---------- the tokens of a command ----------

  predicate HasTok(c: Parsed, t: Tok) {
    match c
    case Exec(argv) => t in argv
    case Redir(d, _, file) => t == file || HasTok(d, t)
    case Pipe(l, r) => HasTok(l, t) || HasTok(r, t)
    case List(l, r) => HasTok(l, t) || HasTok(r, t)
    case Back(d) => HasTok(d, t)
  }

  /** Position e is where some token of the command ends. */
  predicate IsEnd(c: Parsed, e: nat) {
    match c
    case Exec(argv) => exists i :: 0 <= i < |argv| && argv[i].eq == e
    case Redir(d, _, file) => e == file.eq || IsEnd(d, e)
    case Pipe(l, r) => IsEnd(l, e) || IsEnd(r, e)
    case List(l, r) => IsEnd(l, e) || IsEnd(r, e)
    case Back(d) => IsEnd(d, e)
  }

  predicate EndsBy(argv: seq<Tok>, n: nat, e: nat)
    requires n <= |argv|
  {
    exists i :: 0 <= i < n && argv[i].eq == e
  }

  lemma {:induction false} TokEnds(s: string, c: Parsed, t: Tok)
    requires ToksOk(s, c) && HasTok(c, t)
    ensures IsTok(s, t) && IsEnd(c, t.eq)
  {
    match c
    case Exec(argv) =>
      var i :| 0 <= i < |argv| && argv[i] == t;
    case Redir(d, _, file) => if HasTok(d, t) { TokEnds(s, d, t); }
    case Pipe(l, r) => if HasTok(l, t) { TokEnds(s, l, t); } else { TokEnds(s, r, t); }
    case List(l, r) => if HasTok(l, t) { TokEnds(s, l, t); } else { TokEnds(s, r, t); }
    case Back(d) => TokEnds(s, d, t);
  }

  /** No recorded end lies inside a word. */
  lemma {:induction false} EndsOutside(s: string, c: Parsed, e: nat)
    requires ToksOk(s, c) && IsEnd(c, e)
    ensures e <= |s| && (e < |s| ==> !IsWordChar(s[e]))
  {
    match c
    case Exec(argv) =>
      var i :| 0 <= i < |argv| && argv[i].eq == e;
      assert IsTok(s, argv[i]);
    case Redir(d, _, file) => if e != file.eq { EndsOutside(s, d, e); }
    case Pipe(l, r) => if IsEnd(l, e) { EndsOutside(s, l, e); } else { EndsOutside(s, r, e); }
    case List(l, r) => if IsEnd(l, e) { EndsOutside(s, l, e); } else { EndsOutside(s, r, e); }
    case Back(d) => EndsOutside(s, d, e);
  }

  /** Buffer b after `nulterminate`: NUL at every recorded end, the input elsewhere. */
  ghost predicate Terminated(s: string, c: Parsed, b: seq<char>) {
    && |b| > |s| && b[|s|] == NUL
    && forall i | 0 <= i < |s| :: b[i] == if IsEnd(c, i) then NUL else s[i]
  }

  /** Each argument and file then reads, as a C string, as exactly its original text. */
  lemma TokensRead(s: string, c: Parsed, b: seq<char>, t: Tok)
    requires NoNul(s) && ToksOk(s, c) && Terminated(s, c, b) && HasTok(c, t)
    ensures t.q < |b| && CString(b, t.q) == Text(s, t)
  {
    TokEnds(s, c, t);
    forall i | t.q <= i < t.eq
      ensures b[i] == s[i] && b[i] != NUL
    {
      if IsEnd(c, i) {
        EndsOutside(s, c, i);
      }
    }
    CStringIs(b, t.q, t.eq);
    assert b[t.q..t.eq] == s[t.q..t.eq];
  }

  // ---------- the parser's code ----------

  class Parser {
    const buf: array<char>
    /** The end of the input, where the buffer holds a NUL. */
    const es: nat
    /** The cursor. */
    var ps: nat
    ghost const s: string

    ghost predicate Valid()
      reads this, buf
    {
      es < buf.Length && buf[..es] == s && buf[es] == NUL && NoNul(s) && ps <= es
    }

    constructor (buf: array<char>, es: nat)
      requires es < buf.Length && buf[es] == NUL && NoNul(buf[..es])
      ensures Valid() && this.buf == buf && this.es == es && ps == 0 && s == buf[..es]
    {
      this.buf, this.es, ps := buf, es, 0;
      s := buf[..es];
    }

    lemma CharAt(i: nat)
      requires Valid() && i < es
      ensures |s| == es && buf[i] == s[i] && s[i] != NUL
    {
      assert buf[..es][i] == buf[i];
    }

    lemma Length()
      requires Valid()
      ensures |s| == es
    {}

    /** Moves over white space. */
    method Skip(p0: nat) returns (p: nat)
      requires Valid() && p0 <= es
      ensures |s| == es && p == SkipWs(s, p0)
    {
      Length();
      p := p0;
      while p < es && IsWs(buf[p])
        invariant p0 <= p <= es && SkipWs(s, p) == SkipWs(s, p0)
      {
        CharAt(p);
        p := p + 1;
      }
      if p < es {
        CharAt(p);
      }
    }

    method LookAhead(toks: string) returns (r: bool)
      requires Valid()
      modifies this`ps
      ensures Valid() && |s| == es && old(ps) <= es && ps == SkipWs(s, old(ps)) && r == Peek(s, old(ps), toks)
    {
      ps := Skip(ps);
      if ps < es {
        CharAt(ps);
      }
      r := buf[ps] != NUL && buf[ps] in toks;
    }

    /** Moves over word characters. */
    method SkipWord(p0: nat) returns (p: nat)
      requires Valid() && p0 <= es
      ensures |s| == es && p == WordEnd(s, p0)
    {
      Length();
      p := p0;
      while p < es && IsWordChar(buf[p])
        invariant p0 <= p <= es && WordEnd(s, p) == WordEnd(s, p0)
      {
        CharAt(p);
        p := p + 1;
      }
      if p < es {
        CharAt(p);
      }
    }

    method NextToken() returns (kind: Kind, q: nat, eq: nat)
      requires Valid()
      modifies this`ps
      ensures Valid() && |s| == es && old(ps) <= es
      ensures GetToken(s, old(ps)) == Token(kind, q, eq, ps)
    {
      hide IsWs, IsWordChar, SkipWs, WordEnd;
      var p := Skip(ps);
      q := p;
      if p < es {
        CharAt(p);
        if p + 1 < es {
          CharAt(p + 1);
        }
      }
      if buf[p] == NUL {
        kind := End;
      } else if buf[p] == '>' {
        p := p + 1;
        if buf[p] == '>' {
          kind := Append;
          p := p + 1;
        } else {
          kind := Sym('>');
        }
      } else if IsSym(buf[p]) {
        kind := Sym(buf[p]);
        p := p + 1;
      } else {
        kind := Word;
        p := SkipWord(p);
      }
      eq := p;
      ps := Skip(p);
    }

    /** Collects redirections as long as there are any. */
    method ParseRedirs() returns (r: Option<seq<Redirection<Tok>>>)
      requires Valid()
      modifies this`ps
      ensures Valid() && |s| == es && old(ps) <= es
      ensures var spec := Redirs(s, old(ps));
              (r.None? <==> spec.Fail?) && (spec.Ok? ==> r == Some(spec.value) && ps == spec.next)
    {
      hide Redirs, GetToken, Peek, SkipWs, ModeOf, NoNul;
      Length();
      var rs := [];
      ghost var p: nat := ps;
      var more := LookAhead("<>");
      PrependNone(Redirs(s, p));
      while more
        invariant Valid() && p <= es && ps == SkipWs(s, p) && more == Peek(s, p, "<>")
        invariant Redirs(s, old(ps)) == Prepend(rs, Redirs(s, p))
        decreases es - p
      {
        SkipTwice(s, p);
        RedirsUnfold(s, p, rs);
        var tok, _, _ := NextToken();
        var kind, q, eq := NextToken();
        if kind != Word {
          return None;
        }
        rs := rs + [Redirection(ModeOf(tok), Tok(q, eq))];
        p := ps;
        more := LookAhead("<>");
      }
      RedirsUnfold(s, p, rs);
      r := Some(rs);
    }

    /** The argument loop: `none` when the shell panics. */
    method ParseArgs(rs0: seq<Redirection<Tok>>) returns (r: Option<Simple>)
      requires Valid()
      modifies this`ps
      ensures Valid() && |s| == es && old(ps) <= es
      ensures var spec := Args(s, old(ps), Simple([], rs0));
              (r.None? <==> spec.Fail?) && (spec.Ok? ==> r == Some(spec.value) && ps == spec.next)
    {
      hide Args, Redirs, GetToken, Peek, SkipWs, NoNul;
      Length();
      var x := Simple([], rs0);
      ghost var p: nat := ps;
      var stop := LookAhead("|)&;");
      while !stop
        invariant Valid() && p <= es && ps == SkipWs(s, p) && stop == Peek(s, p, "|)&;")
        invariant Args(s, old(ps), Simple([], rs0)) == Args(s, p, x)
        decreases es - p
      {
        SkipTwice(s, p);
        ArgsUnfold(s, p, x);
        var tok, q, eq := NextToken();
        if tok == End {
          return Some(x);
        }
        if tok != Word {
          return None;
        }
        if |x.argv| + 1 >= MAXARGS {
          return None;
        }
        var more := ParseRedirs();
        if more.None? {
          return None;
        }
        x := Simple(x.argv + [Tok(q, eq)], x.redirs + more.value);
        p := ps;
        stop := LookAhead("|)&;");
      }
      ArgsUnfold(s, p, x);
      r := Some(x);
    }

    method ParseExecCmd() returns (r: Option<Parsed>)
      requires Valid()
      modifies this`ps
      ensures Valid() && |s| == es && old(ps) <= es
      ensures Agrees(r, ps, ParseExec(s, old(ps)))
      decreases es - ps, 1
    {
      hide Args, Redirs, GetToken, Peek, SkipWs, NoNul, ParseBlock, Wrap;
      Length();
      ghost var p: nat := ps;
      SkipTwice(s, p);
      ExecSame(s, p);
      var paren := LookAhead("(");
      if paren {
        r := ParseBlockCmd();
        return;
      }
      var rs := ParseRedirs();
      if rs.None? {
        return None;
      }
      var x := ParseArgs(rs.value);
      if x.None? {
        return None;
      }
      r := Some(Wrap(Exec(x.value.argv), x.value.redirs));
    }

    method ParseBlockCmd() returns (r: Option<Parsed>)
      requires Valid()
      modifies this`ps
      ensures Valid() && |s| == es && old(ps) <= es
      ensures Agrees(r, ps, ParseBlock(s, old(ps)))
      decreases es - ps, 0
    {
      hide Args, Redirs, GetToken, Peek, SkipWs, NoNul, ParseLine, Wrap;
      Length();
      ghost var p: nat := ps;
      SkipTwice(s, p);
      var paren := LookAhead("(");
      if !paren {
        return None;
      }
      TokenMoves(s, p, "(");
      var _, _, _ := NextToken();
      r := ParseLineCmd();
      if r.None? {
        return None;
      }
      ghost var e: nat := ps;
      SkipTwice(s, e);
      paren := LookAhead(")");
      if !paren {
        return None;
      }
      var _, _, _ := NextToken();
      var rs := ParseRedirs();
      if rs.None? {
        return None;
      }
      r := Some(Wrap(r.value, rs.value));
    }

    method ParsePipeCmd() returns (r: Option<Parsed>)
      requires Valid()
      modifies this`ps
      ensures Valid() && |s| == es && old(ps) <= es
      ensures Agrees(r, ps, ParsePipe(s, old(ps)))
      decreases es - ps, 2
    {
      hide GetToken, Peek, SkipWs, NoNul, ParseExec;
      r := ParseExecCmd();
      if r.None? {
        return None;
      }
      ghost var e: nat := ps;
      SkipTwice(s, e);
      TokenMoves(s, e, "|");
      var bar := LookAhead("|");
      if bar {
        var _, _, _ := NextToken();
        var right := ParsePipeCmd();
        if right.None? {
          return None;
        }
        r := Some(Pipe(r.value, right.value));
      }
    }

    method ParseLineCmd() returns (r: Option<Parsed>)
      requires Valid()
      modifies this`ps
      ensures Valid() && |s| == es && old(ps) <= es
      ensures Agrees(r, ps, ParseLine(s, old(ps)))
      decreases es - ps, 3
    {
      hide GetToken, Peek, SkipWs, NoNul, ParsePipe, Backs;
      r := ParsePipeCmd();
      if r.None? {
        return None;
      }
      ghost var e, c0 := ps, r.value;
      var c, p := r.value, ps;
      var amp := LookAhead("&");
      while amp
        invariant Valid() && e <= p <= es && ps == SkipWs(s, p) && amp == Peek(s, p, "&")
        invariant Backs(s, e, c0) == Backs(s, p, c)
        decreases es - p
      {
        SkipTwice(s, p);
        TokenMoves(s, p, "&");
        BacksUnfold(s, p, c);
        var _, _, _ := NextToken();
        c := Back(c);
        p := ps;
        amp := LookAhead("&");
      }
      BacksUnfold(s, p, c);
      SkipTwice(s, p);
      p := ps;
      SkipTwice(s, p);
      TokenMoves(s, p, ";");
      var semi := LookAhead(";");
      if semi {
        var _, _, _ := NextToken();
        var right := ParseLineCmd();
        if right.None? {
          return None;
        }
        return Some(List(c, right.value));
      }
      r := Some(c);
    }
  }

  ghost predicate Agrees(r: Option<Parsed>, ps: nat, spec: Parse<Parsed>) {
    (r.None? <==> spec.Fail?) && (spec.Ok? ==> r == Some(spec.value) && ps == spec.next)
  }

  lemma PrependNone(r: Parse<seq<Redirection<Tok>>>)
    ensures Prepend([], r) == r
  {
    if r.Ok? {
      assert [] + r.value == r.value;
    }
  }

  lemma RedirsUnfold(s: string, p: nat, rs: seq<Redirection<Tok>>)
    requires p <= |s|
    ensures !Peek(s, p, "<>") ==> Prepend(rs, Redirs(s, p)) == Ok(rs, SkipWs(s, p))
    ensures Peek(s, p, "<>") ==>
              var t := GetToken(s, p);
              var f := GetToken(s, t.next);
              && p < f.next
              && Prepend(rs, Redirs(s, p)) ==
                 if f.kind != Word then Fail
                 else Prepend(rs + [Redirection(ModeOf(t.kind), Tok(f.q, f.eq))], Redirs(s, f.next))
  {
    hide SkipWs, ModeOf, Peek, GetToken;
    TokenMoves(s, p, "<>");
    if Peek(s, p, "<>") {
      var t := GetToken(s, p);
      var f := GetToken(s, t.next);
      if f.kind == Word {
        PrependTwice(rs, [Redirection(ModeOf(t.kind), Tok(f.q, f.eq))], Redirs(s, f.next));
      }
    } else {
      assert rs + [] == rs;
    }
  }

  lemma PrependTwice(a: seq<Redirection<Tok>>, b: seq<Redirection<Tok>>, r: Parse<seq<Redirection<Tok>>>)
    ensures Prepend(a, Prepend(b, r)) == Prepend(a + b, r)
  {
    if r.Ok? {
      assert a + (b + r.value) == (a + b) + r.value;
    }
  }

  lemma ArgsUnfold(s: string, p: nat, x: Simple)
    requires p <= |s|
    ensures Peek(s, p, "|)&;") ==> Args(s, p, x) == Ok(x, SkipWs(s, p))
    ensures !Peek(s, p, "|)&;") ==>
              var t := GetToken(s, p);
              && (t.kind == End ==> Args(s, p, x) == Ok(x, t.next))
              && (t.kind != End && t.kind != Word ==> Args(s, p, x).Fail?)
              && (t.kind == Word && |x.argv| + 1 >= MAXARGS ==> Args(s, p, x).Fail?)
              && (t.kind == Word && |x.argv| + 1 < MAXARGS ==>
                    var rs := Redirs(s, t.next);
                    && (rs.Fail? ==> Args(s, p, x).Fail?)
                    && (rs.Ok?
                        ==> p < rs.next
                            && Args(s, p, x)
                               == Args(s, rs.next, Simple(x.argv + [Tok(t.q, t.eq)], x.redirs + rs.value))))
  {
    hide Peek, SkipWs, GetToken, Redirs;
  }

  lemma BacksUnfold(s: string, p: nat, c: Parsed)
    requires p <= |s|
    ensures Backs(s, p, c) == if Peek(s, p, "&") then Backs(s, GetToken(s, p).next, Back(c)) else Ok(c, SkipWs(s, p))
  {}

  /** A token that `peek` has seen is there to be read. */
  lemma TokenMoves(s: string, p: nat, toks: string)
    requires p <= |s|
    ensures Peek(s, p, toks) ==> GetToken(s, p).next > p
  {}

  /** Parsing may start at the white space or behind it. */
  lemma ExecSame(s: string, p: nat)
    requires p <= |s|
    ensures Peek(s, SkipWs(s, p), "(") == Peek(s, p, "(") && Redirs(s, SkipWs(s, p)) == Redirs(s, p)
    ensures ParseBlock(s, SkipWs(s, p)) == ParseBlock(s, p)
  {
    SkipTwice(s, p);
  }

  function Prepend(rs: seq<Redirection<Tok>>, r: Parse<seq<Redirection<Tok>>>): Parse<seq<Redirection<Tok>>> {
    if r.Fail? then Fail else Ok(rs + r.value, r.next)
  }

  /** `peek` before `gettoken` changes nothing. */
  lemma SkipTwice(s: string, p: nat)
    requires p <= |s|
    ensures SkipWs(s, SkipWs(s, p)) == SkipWs(s, p) && GetToken(s, SkipWs(s, p)) == GetToken(s, p)
    ensures forall toks :: Peek(s, SkipWs(s, p), toks) == Peek(s, p, toks)
  {}

  // ---------- termination in place ----------

  /** Writes a NUL behind every token of the command. */
  method NulTerminate(buf: array<char>, c: Parsed, ghost s: string)
    requires ToksOk(s, c) && |s| < buf.Length
    modifies buf
    ensures forall i: nat | i < buf.Length :: buf[i] == if IsEnd(c, i) then NUL else old(buf[i])
    decreases c
  {
    match c
    case Exec(argv) =>
      for i := 0 to |argv|
        invariant forall k: nat | k < buf.Length :: buf[k] == if EndsBy(argv, i, k) then NUL else old(buf[k])
      {
        assert IsTok(s, argv[i]);
        EndsNext(argv, i);
        buf[argv[i].eq] := NUL;
      }
    case Redir(d, _, file) =>
      NulTerminate(buf, d, s);
      buf[file.eq] := NUL;
    case Pipe(l, r) =>
      NulTerminate(buf, l, s);
      NulTerminate(buf, r, s);
    case List(l, r) =>
      NulTerminate(buf, l, s);
      NulTerminate(buf, r, s);
    case Back(d) =>
      NulTerminate(buf, d, s);
  }

  lemma EndsNext(argv: seq<Tok>, i: nat)
    requires i < |argv|
    ensures forall k: nat :: EndsBy(argv, i + 1, k) <==> EndsBy(argv, i, k) || k == argv[i].eq
  {
    forall k: nat
      ensures EndsBy(argv, i + 1, k) <==> EndsBy(argv, i, k) || k == argv[i].eq
    {
      if EndsBy(argv, i, k) {
        var j :| 0 <= j < i && argv[j].eq == k;
        assert 0 <= j < i + 1;
      }
      if k == argv[i].eq {
        assert 0 <= i < i + 1 && argv[i].eq == k;
      }
    }
  }

  /** Parses the line in the buffer and terminates its tokens in place: every argument and file
      of the result then reads as exactly the text it had. */
  method ParseCommand(buf: array<char>, n: nat) returns (r: Option<Parsed>)
    requires n < buf.Length && buf[n] == NUL && NoNul(buf[..n])
    modifies buf
    ensures r == ParseCmd(old(buf[..n]))
    ensures r.Some? ==> forall t | HasTok(r.value, t) :: CString(buf[..], t.q) == Text(old(buf[..n]), t)
    ensures r.Some? ==> forall i: nat | n < i < buf.Length :: buf[i] == old(buf[i])
  {
    hide ParseLine, IsTok, HasTok, CString, SkipWs;
    ghost var s := buf[..n];
    var parser := new Parser(buf, n);
    r := parser.ParseLineCmd();
    if r.None? {
      return None;
    }
    var _ := parser.LookAhead("");
    if parser.ps != n {
      return None;
    }
    AcceptedOk(s);
    NulTerminate(buf, r.value, s);
    AllRead(s, r.value, buf[..]);
  }

  lemma AllRead(s: string, c: Parsed, b: seq<char>)
    requires NoNul(s) && ToksOk(s, c) && |b| > |s|
    requires forall i: nat | i < |s| :: b[i] == if IsEnd(c, i) then NUL else s[i]
    requires b[|s|] == NUL
    ensures forall t | HasTok(c, t) :: CString(b, t.q) == Text(s, t)
    ensures forall i: nat | |s| < i :: !IsEnd(c, i)
  {
    forall t | HasTok(c, t)
      ensures CString(b, t.q) == Text(s, t)
    {
      TokensRead(s, c, b, t);
    }
    forall i: nat | |s| < i
      ensures !IsEnd(c, i)
    {
      if IsEnd(c, i) {
        EndsOutside(s, c, i);
      }
    }
  }
}
