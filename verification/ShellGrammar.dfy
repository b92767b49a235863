/** The shell's command language: tokens and the recursive-descent parser as functions of the
    input and a cursor. A failure stands for the shell's panic. */
module ShellGrammar {
  import opened Options

  const MAXARGS := 10

  /** Input, output, appended output: flags O_RDONLY on descriptor 0, O_WRONLY|O_CREATE|O_TRUNC
      and O_WRONLY|O_CREATE on descriptor 1. */
  datatype Mode = In | Out | App

  /** Commands over tokens of type T: positions in the input, or their text. */
  datatype Cmd<T> =
    | Exec(argv: seq<T>)
    | Redir(cmd: Cmd<T>, mode: Mode, file: T)
    | Pipe(left: Cmd<T>, right: Cmd<T>)
    | List(left: Cmd<T>, right: Cmd<T>)
    | Back(cmd: Cmd<T>)

  datatype Redirection<T> = Redirection(mode: Mode, file: T)

  /** A token's text is s[q..eq]. */
  datatype Tok = Tok(q: nat, eq: nat)

  // ---------- tokens ----------

  predicate IsWs(c: char) {
    c == ' ' || c == '\t' || c == '\r' || c == '\n' || c == '\U{0B}'
  }

  predicate IsSym(c: char) {
    c == '<' || c == '|' || c == '>' || c == '&' || c == ';' || c == '(' || c == ')'
  }

  predicate IsWordChar(c: char) {
    !IsWs(c) && !IsSym(c)
  }

  /** Nothing but white space from p up to q. */
  predicate Blank(s: string, p: nat, q: nat) {
    p <= q <= |s| && forall i | p <= i < q :: IsWs(s[i])
  }

  /** q is the first position from p on that is no white space. */
  predicate Skipped(s: string, p: nat, q: nat) {
    Blank(s, p, q) && (q < |s| ==> !IsWs(s[q]))
  }

  function SkipWs(s: string, p: nat): (r: nat)
    requires p <= |s|
    ensures p <= r && Skipped(s, p, r)
    decreases |s| - p
  {
    if p < |s| && IsWs(s[p]) then SkipWs(s, p + 1) else p
  }

  function WordEnd(s: string, p: nat): (r: nat)
    requires p <= |s|
    ensures p <= r <= |s| && (r < |s| ==> !IsWordChar(s[r])) && (forall i | p <= i < r :: IsWordChar(s[i]))
    decreases |s| - p
  {
    if p < |s| && IsWordChar(s[p]) then WordEnd(s, p + 1) else p
  }

  /** What `gettoken` returns: 0, a symbol, '+' for >>, or 'a' for a word. */
  datatype Kind = End | Sym(c: char) | Append | Word

  datatype Token = Token(kind: Kind, q: nat, eq: nat, next: nat)

  predicate TwiceAt(s: string, q: nat) {
    q + 1 < |s| && s[q] == '>' && s[q + 1] == '>'
  }

  /** Which token starts at q, where no white space is. */
  predicate KindAt(s: string, q: nat, k: Kind) {
    && (k == End <==> q >= |s|)
    && (k == Append <==> TwiceAt(s, q))
    && (k.Sym? <==> q < |s| && IsSym(s[q]) && !TwiceAt(s, q))
    && (k.Sym? ==> k.c == s[q])
  }

  /** The longest token of that kind. */
  predicate EndsAt(s: string, t: Token) {
    match t.kind
    case End => t.eq == t.q
    case Sym(_) => t.eq == t.q + 1
    case Append => t.eq == t.q + 2
    case Word => IsTok(s, Tok(t.q, t.eq))
  }

  /** The token at p: white space, then the longest token there, then white space. */
  function GetToken(s: string, p: nat): (t: Token)
    requires p <= |s|
    ensures p <= t.q <= t.eq <= t.next <= |s|
    ensures Skipped(s, p, t.q) && KindAt(s, t.q, t.kind) && EndsAt(s, t) && Skipped(s, t.eq, t.next)
  {
    var q := SkipWs(s, p);
    var (kind, eq) :=
      if q == |s| then (End, q)
      else if s[q] == '>' then (if q + 1 < |s| && s[q + 1] == '>' then (Append, q + 2) else (Sym('>'), q + 1))
      else if IsSym(s[q]) then (Sym(s[q]), q + 1)
      else (Word, WordEnd(s, q));
    Token(kind, q, eq, SkipWs(s, eq))
  }

  /** A whole word: word characters inside, none right behind. */
  predicate IsTok(s: string, t: Tok) {
    t.q < t.eq <= |s| && (t.eq < |s| ==> !IsWordChar(s[t.eq])) && (forall i | t.q <= i < t.eq :: IsWordChar(s[i]))
  }

  /** `peek`: is the next character one of `toks`? */
  predicate Peek(s: string, p: nat, toks: string)
    requires p <= |s|
  {
    var q := SkipWs(s, p);
    q < |s| && s[q] in toks
  }

  // ---------- the parser ----------

  datatype Parse<T> = Ok(value: T, next: nat) | Fail

  type Parsed = Cmd<Tok>

  function ModeOf(k: Kind): Mode {
    if k == Append then App else if k == Sym('>') then Out else In
  }

  /** The redirections at p. */
  function Redirs(s: string, p: nat): (r: Parse<seq<Redirection<Tok>>>)
    requires p <= |s|
    ensures r.Ok? ==> p <= r.next <= |s|
    ensures r.Ok? ==> forall i | 0 <= i < |r.value| :: IsTok(s, r.value[i].file)
    decreases |s| - p
  {
    if !Peek(s, p, "<>") then Ok([], SkipWs(s, p))
    else
      var t := GetToken(s, p);
      var f := GetToken(s, t.next);
      if f.kind != Word then Fail
      else
        var rest := Redirs(s, f.next);
        if rest.Fail? then Fail
        else Ok([Redirection(ModeOf(t.kind), Tok(f.q, f.eq))] + rest.value, rest.next)
  }

  datatype Simple = Simple(argv: seq<Tok>, redirs: seq<Redirection<Tok>>)

  ghost predicate SimpleOk(s: string, x: Simple) {
    && |x.argv| < MAXARGS
    && (forall i | 0 <= i < |x.argv| :: IsTok(s, x.argv[i]))
    && (forall i | 0 <= i < |x.redirs| :: IsTok(s, x.redirs[i].file))
  }

  /** The argument loop of `parseexec`, `x` being what it has so far. */
  function Args(s: string, p: nat, x: Simple): (r: Parse<Simple>)
    requires p <= |s|
    ensures r.Ok? ==> p <= r.next <= |s|
    ensures r.Ok? && SimpleOk(s, x) ==> SimpleOk(s, r.value)
    decreases |s| - p
  {
    if Peek(s, p, "|)&;") then Ok(x, SkipWs(s, p))
    else
      var t := GetToken(s, p);
      if t.kind == End then Ok(x, t.next)
      else if t.kind != Word then Fail
      else if |x.argv| + 1 >= MAXARGS then Fail
      else
        var rs := Redirs(s, t.next);
        if rs.Fail? then Fail
        else Args(s, rs.next, Simple(x.argv + [Tok(t.q, t.eq)], x.redirs + rs.value))
  }

  function Wrap<T>(c: Cmd<T>, rs: seq<Redirection<T>>): Cmd<T>
    decreases |rs|
  {
    if rs == [] then c
    else
      var last := rs[|rs| - 1];
      Redir(Wrap(c, rs[..|rs| - 1]), last.mode, last.file)
  }

  function ParseLine(s: string, p: nat): (r: Parse<Parsed>)
    requires p <= |s|
    ensures r.Ok? ==> p <= r.next <= |s|
    decreases |s| - p, 3
  {
    var c := ParsePipe(s, p);
    if c.Fail? then Fail
    else
      var b := Backs(s, c.next, c.value);
      if Peek(s, b.next, ";") then
        var rest := ParseLine(s, GetToken(s, b.next).next);
        if rest.Fail? then Fail else Ok(List(b.value, rest.value), rest.next)
      else Ok(b.value, SkipWs(s, b.next))
  }

  /** The loop over & in `parseline`. */
  function Backs(s: string, p: nat, c: Parsed): (r: Parse<Parsed>)
    requires p <= |s|
    ensures r.Ok? && p <= r.next <= |s|
    decreases |s| - p
  {
    if Peek(s, p, "&") then Backs(s, GetToken(s, p).next, Back(c)) else Ok(c, SkipWs(s, p))
  }

  function ParsePipe(s: string, p: nat): (r: Parse<Parsed>)
    requires p <= |s|
    ensures r.Ok? ==> p <= r.next <= |s|
    decreases |s| - p, 2
  {
    var c := ParseExec(s, p);
    if c.Fail? then Fail
    else if Peek(s, c.next, "|") then
      var rest := ParsePipe(s, GetToken(s, c.next).next);
      if rest.Fail? then Fail else Ok(Pipe(c.value, rest.value), rest.next)
    else Ok(c.value, SkipWs(s, c.next))
  }

  function ParseExec(s: string, p: nat): (r: Parse<Parsed>)
    requires p <= |s|
    ensures r.Ok? ==> p <= r.next <= |s|
    decreases |s| - p, 1
  {
    if Peek(s, p, "(") then ParseBlock(s, p)
    else
      var rs := Redirs(s, p);
      if rs.Fail? then Fail
      else
        var x := Args(s, rs.next, Simple([], rs.value));
        if x.Fail? then Fail else Ok(Wrap(Exec(x.value.argv), x.value.redirs), x.next)
  }

  function ParseBlock(s: string, p: nat): (r: Parse<Parsed>)
    requires p <= |s|
    ensures r.Ok? ==> p <= r.next <= |s|
    decreases |s| - p, 0
  {
    if !Peek(s, p, "(") then Fail
    else
      var c := ParseLine(s, GetToken(s, p).next);
      if c.Fail? then Fail
      else if !Peek(s, c.next, ")") then Fail
      else
        var rs := Redirs(s, GetToken(s, c.next).next);
        if rs.Fail? then Fail else Ok(Wrap(c.value, rs.value), rs.next)
  }

  /** The whole input must be one line. */
  function ParseCmd(s: string): Option<Parsed> {
    var r := ParseLine(s, 0);
    if r.Ok? && SkipWs(s, r.next) == |s| then Some(r.value) else None
  }

  // ---------- the text of a parsed command ----------

  function Text(s: string, t: Tok): string {
    if t.q <= t.eq <= |s| then s[t.q..t.eq] else ""
  }

  function Texts(s: string, ts: seq<Tok>): (r: seq<string>)
    ensures |r| == |ts| && forall i | 0 <= i < |ts| :: r[i] == Text(s, ts[i])
  {
    if ts == [] then [] else [Text(s, ts[0])] + Texts(s, ts[1..])
  }

  function Read(s: string, c: Parsed): Cmd<string> {
    match c
    case Exec(argv) => Exec(Texts(s, argv))
    case Redir(d, mode, file) => Redir(Read(s, d), mode, Text(s, file))
    case Pipe(l, r) => Pipe(Read(s, l), Read(s, r))
    case List(l, r) => List(Read(s, l), Read(s, r))
    case Back(d) => Back(Read(s, d))
  }

  // ---------- every token recorded is a whole word ----------

  ghost predicate ToksOk(s: string, c: Parsed) {
    match c
    case Exec(argv) => |argv| < MAXARGS && forall i | 0 <= i < |argv| :: IsTok(s, argv[i])
    case Redir(d, _, file) => ToksOk(s, d) && IsTok(s, file)
    case Pipe(l, r) => ToksOk(s, l) && ToksOk(s, r)
    case List(l, r) => ToksOk(s, l) && ToksOk(s, r)
    case Back(d) => ToksOk(s, d)
  }

  lemma {:induction false} WrapOk(s: string, c: Parsed, rs: seq<Redirection<Tok>>)
    requires ToksOk(s, c) && forall i | 0 <= i < |rs| :: IsTok(s, rs[i].file)
    ensures ToksOk(s, Wrap(c, rs))
    decreases |rs|
  {
    if rs != [] {
      WrapOk(s, c, rs[..|rs| - 1]);
    }
  }

  lemma {:induction false} BacksOk(s: string, p: nat, c: Parsed)
    requires p <= |s| && ToksOk(s, c)
    ensures ToksOk(s, Backs(s, p, c).value)
    decreases |s| - p
  {
    if Peek(s, p, "&") {
      BacksOk(s, GetToken(s, p).next, Back(c));
    }
  }

  lemma {:induction false} LineOk(s: string, p: nat)
    requires p <= |s|
    ensures ParseLine(s, p).Ok? ==> ToksOk(s, ParseLine(s, p).value)
    decreases |s| - p, 3
  {
    PipeOk(s, p);
    var c := ParsePipe(s, p);
    if c.Ok? {
      BacksOk(s, c.next, c.value);
      var b := Backs(s, c.next, c.value);
      if Peek(s, b.next, ";") {
        LineOk(s, GetToken(s, b.next).next);
      }
    }
  }

  lemma {:induction false} PipeOk(s: string, p: nat)
    requires p <= |s|
    ensures ParsePipe(s, p).Ok? ==> ToksOk(s, ParsePipe(s, p).value)
    decreases |s| - p, 2
  {
    ExecOk(s, p);
    var c := ParseExec(s, p);
    if c.Ok? && Peek(s, c.next, "|") {
      PipeOk(s, GetToken(s, c.next).next);
    }
  }

  lemma {:induction false} ExecOk(s: string, p: nat)
    requires p <= |s|
    ensures ParseExec(s, p).Ok? ==> ToksOk(s, ParseExec(s, p).value)
    decreases |s| - p, 1
  {
    if Peek(s, p, "(") {
      var c := ParseLine(s, GetToken(s, p).next);
      LineOk(s, GetToken(s, p).next);
      if c.Ok? && Peek(s, c.next, ")") {
        var rs := Redirs(s, GetToken(s, c.next).next);
        if rs.Ok? {
          WrapOk(s, c.value, rs.value);
        }
      }
    } else {
      var rs := Redirs(s, p);
      if rs.Ok? {
        var x := Args(s, rs.next, Simple([], rs.value));
        if x.Ok? {
          WrapOk(s, Exec(x.value.argv), x.value.redirs);
        }
      }
    }
  }

  /** In an accepted input every recorded argument and file is a whole word, and no command has
      more than nine arguments. */
  lemma AcceptedOk(s: string)
    ensures ParseCmd(s).Some? ==> ToksOk(s, ParseCmd(s).value)
  {
    LineOk(s, 0);
  }
}
