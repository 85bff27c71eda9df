/**
 The shell's parser as it runs: a cursor over the characters of the line, moved by mutually
 recursive procedures, and the pass that terminates words in the buffer.  Each procedure is
 proved to compute the function of `ShellGrammar` on the tokens of the line.
 */
module ShellReader {
  import opened ShellGrammar
  import opened ShellText

  datatype Outcome = Parsed(cmd: Cmd) | Panic(error: Error)

  /** What `peek` looks for: the characters that a token of the given kinds starts with. */
  predicate StartsWith(t: Token, chars: string) {
    match t
    case Bar => '|' in chars case Open => '(' in chars case Close => ')' in chars case Semi => ';' in chars
    case Amp => '&' in chars case Less => '<' in chars case Great => '>' in chars case Append => '>' in chars
    case Word(_) => false
  }

  ghost predicate OnlySymbols(chars: string) {
    forall k :: 0 <= k < |chars| ==> IsSymbol(chars[k])
  }

  /** The first character tells the kind of the first token. */
  lemma PeekIs(s: string, i: nat, chars: string)
    requires i <= |s| && IsText(s) && (i < |s| ==> !IsSpace(s[i])) && OnlySymbols(chars)
    ensures (i < |s| && s[i] in chars) <==> (Lex(s, i) != [] && StartsWith(Lex(s, i)[0], chars))
  {
    assert SkipSpace(s, i) == i;
    assert i < |s| ==> TokenAt(s, i).Found?;
    assert i < |s| && s[i] in chars ==> IsSymbol(s[i]);
  }

  lemma LexUnfold(s: string, i: nat)
    requires i <= |s|
    ensures var r := TokenAt(s, SkipSpace(s, i));
            && (r.End? ==> Lex(s, i) == [])
            && (r.Found? ==> Lex(s, i) != [] && Lex(s, i)[0] == r.token && Lex(s, i)[1..] == Lex(s, r.next))
  {
  }

  /** What the procedures look for, in terms of tokens. */
  ghost predicate Wanted(toks: seq<Token>, chars: string) {
    toks != [] && StartsWith(toks[0], chars)
  }

  lemma Wants(toks: seq<Token>)
    ensures Wanted(toks, "<>") <==> toks != [] && IsRedir(toks[0])
    ensures Wanted(toks, "|)&;") <==> toks != [] && Stops(toks)
    ensures Wanted(toks, "(") <==> toks != [] && toks[0].Open?
    ensures Wanted(toks, ")") <==> toks != [] && toks[0].Close?
    ensures Wanted(toks, "|") <==> toks != [] && toks[0].Bar?
    ensures Wanted(toks, "&") <==> toks != [] && toks[0].Amp?
    ensures Wanted(toks, ";") <==> toks != [] && toks[0].Semi?
  {
  }

  lemma Symbols()
    ensures OnlySymbols("<>") && OnlySymbols("|)&;") && OnlySymbols("(") && OnlySymbols(")") && OnlySymbols("|") &&
              OnlySymbols("&") && OnlySymbols(";") && OnlySymbols("")
  {
  }

  class Reader {
    const s: string
    var ps: nat

    constructor (s: string)
      ensures this.s == s && ps == 0
    {
      this.s := s;
      ps := 0;
    }

    ghost predicate Valid()
      reads this
    {
      ps <= |s| && IsText(s)
    }

    /** The tokens that are left. */
    ghost function Rest(): seq<Token>
      requires ps <= |s|
      reads this
    {
      Lex(s, ps)
    }

    method SkipSpaces()
      requires Valid()
      modifies this
      ensures Valid() && ps == SkipSpace(s, old(ps)) && Rest() == old(Rest())
    {
      while ps < |s| && IsSpace(s[ps])
        invariant ps <= |s| && SkipSpace(s, ps) == SkipSpace(s, old(ps))
      {
        ps := ps + 1;
      }
      LexSkip(s, old(ps));
    }

    /** `gettoken`. */
    method GetToken() returns (r: Lexed)
      requires Valid()
      modifies this
      ensures Valid() && old(ps) <= ps
      ensures r.End? <==> old(Rest()) == []
      ensures r.Found? ==> old(ps) < ps && r.token == old(Rest())[0] && Rest() == old(Rest())[1..]
      ensures r.End? ==> Rest() == []
    {
      SkipSpaces();
      LexUnfold(s, ps);
      assert SkipSpace(s, ps) == ps;
      ghost var t := TokenAt(s, ps);
      hide Lex;
      if ps >= |s| {
        return End;
      }
      var q := ps;
      match s[ps] {
        case '|' => ps := ps + 1; r := Found(Bar, ps);
        case '(' => ps := ps + 1; r := Found(Open, ps);
        case ')' => ps := ps + 1; r := Found(Close, ps);
        case ';' => ps := ps + 1; r := Found(Semi, ps);
        case '&' => ps := ps + 1; r := Found(Amp, ps);
        case '<' => ps := ps + 1; r := Found(Less, ps);
        case '>' =>
          ps := ps + 1;
          r := Found(Great, ps);
          if ps < |s| && s[ps] == '>' {
            ps := ps + 1;
            r := Found(Append, ps);
          }
        case _ =>
          SkipWord();
          r := Found(Word(Lexeme(s[q..ps], q, ps)), ps);
      }
      assert r == t && ps == t.next;
      SkipSpaces();
    }

    method SkipWord()
      requires Valid()
      modifies this
      ensures Valid() && ps == WordEnd(s, old(ps))
    {
      while ps < |s| && !IsSpace(s[ps]) && !IsSymbol(s[ps])
        invariant ps <= |s| && WordEnd(s, ps) == WordEnd(s, old(ps))
      {
        ps := ps + 1;
      }
    }

    /** `peek`. */
    method Peek(chars: string) returns (b: bool)
      requires Valid() && OnlySymbols(chars)
      modifies this
      ensures Valid() && old(ps) <= ps && Rest() == old(Rest()) && (ps < |s| ==> !IsSpace(s[ps]))
      ensures b <==> Wanted(Rest(), chars)
    {
      SkipSpaces();
      PeekIs(s, ps, chars);
      return ps < |s| && s[ps] in chars;
    }

    /** `parseredirs`: the redirections after those already read. */
    method ParseRedirections(before: seq<Redirection>) returns (reds: seq<Redirection>, error: bool)
      requires Valid()
      modifies this
      ensures Valid() && old(ps) <= ps
      ensures !error ==> ParseRedirs(old(Rest()), before) == RedirOk(reds, Rest())
      ensures error ==> ParseRedirs(old(Rest()), before) == RedirFail(MissingFile)
    {
      hide Lex;
      hide Wanted;
      hide OnlySymbols;
      hide IsText;
      hide ParseRedirs;
      reds := before;
      Symbols();
      var more := Peek("<>");
      Wants(Rest());
      while more
        invariant Valid() && old(ps) <= ps && ParseRedirs(Rest(), reds) == ParseRedirs(old(Rest()), before)
        invariant more <==> Rest() != [] && IsRedir(Rest()[0])
        decreases |s| - ps
      {
        ghost var toks := Rest();
        RedirCases(toks, reds);
        var sign := GetToken();
        var file := GetToken();
        if file.End? || !file.token.Word? { return reds, true; }
        reds := reds + [Redirection(file.token.w, !sign.token.Less?)];
        more := Peek("<>");
        Wants(Rest());
      }
      RedirsNone(Rest(), reds);
      return reds, false;
    }

    /** `parseexec`. */
    method ParseSimple() returns (r: Outcome)
      requires Valid()
      modifies this
      ensures Valid() && old(ps) <= ps && Matches(r, ParseExec(old(Rest())), Rest())
      decreases |s| - ps, 1
    {
      hide Lex;
      hide Wanted;
      hide OnlySymbols;
      hide IsText;
      hide ParseWords;
      hide ParseBlock;
      Symbols();
      var block := Peek("(");
      Wants(Rest());
      if block {
        r := ParseParens();
      } else {
        r := ParseArguments();
      }
    }

    /** `parseblock`. */
    method ParseParens() returns (r: Outcome)
      requires Valid() && Rest() != [] && Rest()[0].Open?
      modifies this
      ensures Valid() && old(ps) <= ps && Matches(r, ParseBlock(old(Rest())), Rest())
      decreases |s| - ps, 0
    {
      hide Lex;
      hide Wanted;
      hide OnlySymbols;
      hide IsText;
      hide ParseLine;
      hide ParseRedirs;
      hide Wrap;
      Symbols();
      var _ := GetToken();
      r := ParseCommandLine();
      if r.Panic? { return; }
      var close := Peek(")");
      Wants(Rest());
      if !close { return Panic(MissingClose); }
      var _ := GetToken();
      var reds, error := ParseRedirections([]);
      if error { return Panic(MissingFile); }
      return Parsed(Wrap(r.cmd, reds));
    }

    /** `parsepipe`. */
    method ParsePipeline() returns (r: Outcome)
      requires Valid()
      modifies this
      ensures Valid() && old(ps) <= ps && Matches(r, ParsePipe(old(Rest())), Rest())
      decreases |s| - ps, 2
    {
      hide Lex;
      hide Wanted;
      hide OnlySymbols;
      hide IsText;
      hide ParseExec;
      Symbols();
      r := ParseSimple();
      if r.Panic? { return; }
      var more := Peek("|");
      Wants(Rest());
      if more {
        var _ := GetToken();
        var right := ParsePipeline();
        if right.Panic? { return right; }
        return Parsed(Pipe(r.cmd, right.cmd));
      }
    }

    /** The loop over `&` in `parseline`. */
    method ParseAmpersands(cmd: Cmd) returns (c: Cmd)
      requires Valid()
      modifies this
      ensures Valid() && old(ps) <= ps && ParseAmps(cmd, old(Rest())) == Ok(c, Rest())
    {
      hide Lex;
      hide Wanted;
      hide OnlySymbols;
      hide IsText;
      Symbols();
      c := cmd;
      var back := Peek("&");
      Wants(Rest());
      while back
        invariant Valid() && old(ps) <= ps && ParseAmps(c, Rest()) == ParseAmps(cmd, old(Rest()))
        invariant back <==> Rest() != [] && Rest()[0].Amp?
        decreases |s| - ps
      {
        var _ := GetToken();
        c := Back(c);
        back := Peek("&");
        Wants(Rest());
      }
    }

    /** `parseline`. */
    method ParseCommandLine() returns (r: Outcome)
      requires Valid()
      modifies this
      ensures Valid() && old(ps) <= ps && Matches(r, ParseLine(old(Rest())), Rest())
      decreases |s| - ps, 3
    {
      hide Lex;
      hide Wanted;
      hide OnlySymbols;
      hide IsText;
      hide ParsePipe;
      hide ParseAmps;
      Symbols();
      r := ParsePipeline();
      if r.Panic? { return; }
      var c := ParseAmpersands(r.cmd);
      var more := Peek(";");
      Wants(Rest());
      if !more { return Parsed(c); }
      var _ := GetToken();
      r := ParseCommandLine();
      if r.Panic? { return; }
      return Parsed(List(c, r.cmd));
    }

    /** The part of `parseexec` that fills `argv`. */
    method ParseArguments() returns (r: Outcome)
      requires Valid()
      modifies this
      ensures Valid() && old(ps) <= ps && Matches(r, ParseWords(old(Rest()), [], []), Rest())
    {
      hide Lex;
      hide Wanted;
      hide OnlySymbols;
      hide IsText;
      hide ParseWords;
      hide ParseRedirs;
      hide Wrap;
      Symbols();
      ghost var whole := ParseWords(Rest(), [], []);
      var argv := new Lexeme[MAX_ARGS](_ => Lexeme("", 0, 0));
      var argc := 0;
      var reds, error := ParseRedirections([]);
      AfterRedirs(old(Rest()), [], []);
      if error { return Panic(MissingFile); }
      var stop := Peek("|)&;");
      Wants(Rest());
      while !stop
        invariant Valid() && old(ps) <= ps && 0 <= argc < MAX_ARGS && fresh(argv)
        invariant ParseWords(Rest(), argv[..argc], reds) == whole && (Rest() != [] ==> !IsRedir(Rest()[0]))
        invariant stop <==> Rest() != [] && Stops(Rest())
        decreases |s| - ps
      {
        ghost var toks, args, were := Rest(), argv[..argc], reds;
        var t := GetToken();
        if t.End? { break; }
        WordsStep(toks, args, were);
        if !t.token.Word? { return Panic(Syntax); }
        argv[argc] := t.token.w;
        assert argv[..argc + 1] == args + [t.token.w];
        argc := argc + 1;
        if argc >= MAX_ARGS { return Panic(TooManyArgs); }
        ghost var next := Rest();
        reds, error := ParseRedirections(reds);
        AfterRedirs(next, argv[..argc], were);
        if error { return Panic(MissingFile); }
        stop := Peek("|)&;");
        Wants(Rest());
      }
      StopFirst(Rest(), argv[..argc], reds);
      return Parsed(Wrap(Exec(argv[..argc]), reds));
    }
  }

  /** One round of `parseredirs`. */
  lemma RedirCases(toks: seq<Token>, reds: seq<Redirection>)
    requires toks != [] && IsRedir(toks[0])
    ensures |toks[1..]| == 0 || !toks[1..][0].Word? ==> ParseRedirs(toks, reds) == RedirFail(MissingFile)
    ensures |toks[1..]| > 0 && toks[1..][0].Word? ==>
              ParseRedirs(toks, reds) ==
                ParseRedirs(toks[1..][1..], reds + [Redirection(toks[1..][0].w, !toks[0].Less?)])
  {
    if |toks| >= 2 { assert toks[1..][1..] == toks[2..]; }
  }

  ghost predicate Matches(r: Outcome, spec: Result, rest: seq<Token>) {
    match spec case Ok(c, after) => r == Parsed(c) && rest == after case Fail(e) => r == Panic(e)
  }

  /** Redirections that have been read need not be read again. */
  lemma AfterRedirs(toks: seq<Token>, args: seq<Lexeme>, reds: seq<Redirection>)
    ensures var p := ParseRedirs(toks, reds);
            && (p.RedirFail? ==> ParseWords(toks, args, reds) == Fail(p.error))
            && (p.RedirOk? ==> ParseWords(toks, args, reds) == ParseWords(p.after, args, p.reds))
  {
    hide Wrap;
    var p := ParseRedirs(toks, reds);
    if p.RedirOk? { RedirsNone(p.after, p.reds); }
  }

  /** A token that is neither a redirection nor the end of the command. */
  lemma WordsStep(toks: seq<Token>, args: seq<Lexeme>, reds: seq<Redirection>)
    requires toks != [] && !Stops(toks) && !IsRedir(toks[0])
    ensures !toks[0].Word? ==> ParseWords(toks, args, reds) == Fail(Syntax)
    ensures toks[0].Word? && |args| + 1 >= MAX_ARGS ==> ParseWords(toks, args, reds) == Fail(TooManyArgs)
    ensures toks[0].Word? && |args| + 1 < MAX_ARGS ==>
              ParseWords(toks, args, reds) == ParseWords(toks[1..], args + [toks[0].w], reds)
  {
    hide Wrap;
    RedirsNone(toks, reds);
  }

  /** `nulterminate`, on the buffer. */
  method NulTerminate(buf: array<char>, c: Cmd)
    modifies buf
    ensures buf[..] == Terminated(old(buf[..]), c)
    decreases c
  {
    match c
    case Exec(args) =>
      var i := 0;
      while i < |args|
        invariant 0 <= i <= |args| && buf[..] == CutAll(old(buf[..]), args[..i])
      {
        CutNext(old(buf[..]), args, i);
        PutNul(buf, args[i]);
        i := i + 1;
      }
      assert args[..|args|] == args;
    case Redir(cmd, file, _) =>
      NulTerminate(buf, cmd);
      PutNul(buf, file);
    case Pipe(l, r) =>
      NulTerminate(buf, l);
      NulTerminate(buf, r);
    case List(l, r) =>
      NulTerminate(buf, l);
      NulTerminate(buf, r);
    case Back(cmd) =>
      NulTerminate(buf, cmd);
  }

  lemma CutNext(buf: seq<char>, args: seq<Lexeme>, i: nat)
    requires i < |args|
    ensures CutAll(buf, args[..i + 1]) == Cut(CutAll(buf, args[..i]), args[i])
  {
    assert args[..i + 1][..i] == args[..i];
  }

  method PutNul(buf: array<char>, w: Lexeme)
    modifies buf
    ensures buf[..] == Cut(old(buf[..]), w)
  {
    if w.end < buf.Length { buf[w.end] := '\0'; }
  }

  /** `parsecmd`: the command, with every word of it a C string in the buffer; or a panic, with the buffer untouched. */
  method ParseCommand(buf: array<char>) returns (r: Outcome)
    requires buf.Length > 0 && buf[buf.Length - 1] == '\0' && IsText(buf[..buf.Length - 1])
    modifies buf
    ensures var spec := ParseText(old(buf[..buf.Length - 1]));
            && (spec.Ok? <==> r.Parsed?)
            && (spec.Ok? ==> r.cmd == spec.cmd && buf[..] == Terminated(old(buf[..]), spec.cmd))
            && (spec.Fail? ==> r.error == spec.error && buf[..] == old(buf[..]))
    ensures r.Parsed? ==> forall w :: w in CmdWords(r.cmd) ==> CString(buf[..], w.start) == w.text
  {
    hide Lex;
    hide ParseLine;
    ghost var was := buf[..];
    var s: string := buf[..buf.Length - 1];
    assert was == s + ['\0'];
    var reader := new Reader(s);
    r := reader.ParseCommandLine();
    if r.Panic? { return; }
    Symbols();
    var _ := reader.Peek("");
    AtEnd(s, reader.ps);
    if reader.ps != |s| { return Panic(Syntax); }
    NulTerminate(buf, r.cmd);
    forall w | w in CmdWords(r.cmd) ensures CString(buf[..], w.start) == w.text { WordsReadBack(s, w); }
  }

  /** Past the spaces, there are tokens left exactly when there are characters left. */
  lemma AtEnd(s: string, i: nat)
    requires i <= |s| && IsText(s) && (i < |s| ==> !IsSpace(s[i]))
    ensures Lex(s, i) == [] <==> i == |s|
  {
    assert SkipSpace(s, i) == i;
    assert i < |s| ==> TokenAt(s, i).Found?;
  }
}
