/**
 From characters to commands and back: the shell's tokens in a line of text, a canonical
 printing of every command, and the strings that a parsed command leaves in the buffer.
 */
module ShellText {
  import opened ShellGrammar

  // ---------------------------------------------------------------- characters and tokens

  predicate IsSpace(c: char) {
    c == ' ' || c == '\t' || c == '\r' || c == '\n' || c == '\U{0B}'
  }

  predicate IsSymbol(c: char) {
    c == '<' || c == '|' || c == '>' || c == '&' || c == ';' || c == '(' || c == ')'
  }

  predicate WordChar(c: char) {
    !IsSpace(c) && !IsSymbol(c) && c != '\0'
  }

  /** A line of input is a C string. */
  ghost predicate IsText(s: string) {
    forall k :: 0 <= k < |s| ==> s[k] != '\0'
  }

  function SkipSpace(s: string, i: nat): (j: nat)
    requires i <= |s|
    ensures i <= j <= |s| && (j < |s| ==> !IsSpace(s[j]))
    ensures forall k :: i <= k < j ==> IsSpace(s[k])
    decreases |s| - i
  {
    if i < |s| && IsSpace(s[i]) then SkipSpace(s, i + 1) else i
  }

  function WordEnd(s: string, i: nat): (j: nat)
    requires i <= |s|
    ensures i <= j <= |s| && (j < |s| ==> !WordChar(s[j]))
    ensures forall k :: i <= k < j ==> WordChar(s[k])
    decreases |s| - i
  {
    if i < |s| && WordChar(s[i]) then WordEnd(s, i + 1) else i
  }

  datatype Lexed = End | Found(token: Token, next: nat)

  /** The token that starts at `i`, which is not a space. */
  function TokenAt(s: string, i: nat): (r: Lexed)
    requires i <= |s| && (i < |s| ==> !IsSpace(s[i]))
    ensures r.Found? ==> i < r.next <= |s|
  {
    if i >= |s| || s[i] == '\0' then End
    else match s[i]
      case '|' => Found(Bar, i + 1)
      case '(' => Found(Open, i + 1)
      case ')' => Found(Close, i + 1)
      case ';' => Found(Semi, i + 1)
      case '&' => Found(Amp, i + 1)
      case '<' => Found(Less, i + 1)
      case '>' => if i + 1 < |s| && s[i + 1] == '>' then Found(Append, i + 2) else Found(Great, i + 1)
      case _ => Found(Word(Lexeme(s[i..WordEnd(s, i)], i, WordEnd(s, i))), WordEnd(s, i))
  }

  /** The tokens of a line from position `i` on. */
  function Lex(s: string, i: nat): seq<Token>
    requires i <= |s|
    decreases |s| - i
  {
    var r := TokenAt(s, SkipSpace(s, i));
    if r.End? then [] else [r.token] + Lex(s, r.next)
  }

  /** `parsecmd` without the in-place termination. */
  function ParseText(s: string): Result {
    ParseCmd(Lex(s, 0))
  }

  lemma LexSkip(s: string, i: nat)
    requires i <= |s|
    ensures Lex(s, SkipSpace(s, i)) == Lex(s, i)
  {
    SkipTwice(s, i);
  }

  lemma {:induction false} SkipTwice(s: string, i: nat)
    requires i <= |s|
    ensures SkipSpace(s, SkipSpace(s, i)) == SkipSpace(s, i)
    decreases |s| - i
  {
    if i < |s| && IsSpace(s[i]) { SkipTwice(s, i + 1); }
  }

  // ---------------------------------------------------------------- words stand apart

  /** A word is a longest run of word characters. */
  ghost predicate LexemeOk(s: string, w: Lexeme) {
    && w.start < w.end <= |s| && w.text == s[w.start..w.end]
    && (forall k :: w.start <= k < w.end ==> WordChar(s[k]))
    && (w.end < |s| ==> !WordChar(s[w.end]))
  }

  ghost predicate TokensOk(s: string, toks: seq<Token>) {
    forall k :: 0 <= k < |toks| && toks[k].Word? ==> LexemeOk(s, toks[k].w)
  }

  lemma {:induction false} LexOk(s: string, i: nat)
    requires i <= |s|
    ensures TokensOk(s, Lex(s, i))
    decreases |s| - i
  {
    var j := SkipSpace(s, i);
    var r := TokenAt(s, j);
    if r.Found? {
      LexOk(s, r.next);
      if r.token.Word? {
        assert WordChar(s[j]);
        assert WordEnd(s, j) > j;
      }
    }
  }

  /** The place after one word is never inside another: the key to terminating words in place. */
  lemma EndsOutside(s: string, v: Lexeme, w: Lexeme)
    requires LexemeOk(s, v) && LexemeOk(s, w)
    ensures !(w.start <= v.end < w.end)
  {
  }

  // ---------------------------------------------------------------- the words of a command

  ghost function TokenWords(toks: seq<Token>): set<Lexeme> {
    set t | t in toks && t.Word? :: t.w
  }

  /** Every argument and file name in a command. */
  ghost function CmdWords(c: Cmd): set<Lexeme> {
    match c
    case Exec(args) => set w | w in args
    case Redir(cmd, file, _) => CmdWords(cmd) + {file}
    case Pipe(l, r) => CmdWords(l) + CmdWords(r)
    case List(l, r) => CmdWords(l) + CmdWords(r)
    case Back(cmd) => CmdWords(cmd)
  }

  lemma WordsConcat(a: seq<Token>, b: seq<Token>)
    ensures TokenWords(a + b) == TokenWords(a) + TokenWords(b)
  {
    forall w | w in TokenWords(a) + TokenWords(b) ensures w in TokenWords(a + b) {
      assert Word(w) in a + b;
    }
  }

  ghost function RedFiles(reds: seq<Redirection>): set<Lexeme> {
    set r | r in reds :: r.file
  }

  lemma {:induction false} WrapWords(cmd: Cmd, reds: seq<Redirection>)
    ensures CmdWords(Wrap(cmd, reds)) == CmdWords(cmd) + RedFiles(reds)
    decreases |reds|
  {
    if reds == [] {
      assert RedFiles(reds) == {};
    } else {
      var init, last := reds[..|reds| - 1], reds[|reds| - 1];
      WrapWords(cmd, init);
      assert reds == init + [last];
      assert RedFiles(reds) == RedFiles(init) + {last.file};
    }
  }

  lemma {:induction false} ItemsWords(items: seq<Item>)
    ensures CmdWords(Exec(ArgsOf(items))) + RedFiles(RedsOf(items)) <= TokenWords(ItemsTokens(items))
    decreases |items|
  {
    if items != [] {
      ItemsWords(items[1..]);
      WordsConcat(ItemTokens(items[0]), ItemsTokens(items[1..]));
      var first := if items[0].Arg? then items[0].w else items[0].file;
      assert Word(first) in ItemTokens(items[0]);
    }
  }

  lemma {:induction false} SimpleWords(s: Simple)
    ensures CmdWords(SimpleCmd(s)) <= TokenWords(SimpleTokens(s))
    decreases s
  {
    hide Wrap;
    match s
    case Items(items) =>
      WrapWords(Exec(ArgsOf(items)), RedsOf(items));
      ItemsWords(items);
    case Block(line, reds) =>
      WrapWords(LineCmd(line), RedsOf(reds));
      ItemsWords(reds);
      LineWords(line);
      BlockTokens(line, reds, []);
      Nothing(SimpleTokens(s));
      Nothing(ItemsTokens(reds));
      WordsConcat([Open], LineTokens(line) + ([Close] + ItemsTokens(reds)));
      WordsConcat(LineTokens(line), [Close] + ItemsTokens(reds));
      WordsConcat([Close], ItemsTokens(reds));
  }

  lemma {:induction false} PipeWords(p: Pipeline)
    ensures CmdWords(PipeCmd(p)) <= TokenWords(PipeTokens(p))
    decreases p
  {
    SimpleWords(p.simple);
    if p.More? {
      PipeWords(p.rest);
      WordsConcat(SimpleTokens(p.simple) + [Bar], PipeTokens(p.rest));
      WordsConcat(SimpleTokens(p.simple), [Bar]);
    }
  }

  lemma {:induction false} BacksWords(c: Cmd, n: nat)
    ensures CmdWords(Backs(c, n)) == CmdWords(c)
    decreases n
  {
    if n > 0 { BacksWords(Back(c), n - 1); }
  }

  lemma {:induction false} LineWords(l: Line)
    ensures CmdWords(LineCmd(l)) <= TokenWords(LineTokens(l))
    decreases l
  {
    PipeWords(l.pipe);
    BacksWords(PipeCmd(l.pipe), l.amps);
    LineUnfold(l, []);
    Nothing(LineTokens(l));
    WordsConcat(PipeTokens(l.pipe), Amps(l.amps));
    if l.Last? {
      Nothing(Amps(l.amps));
    } else {
      LineWords(l.rest);
      Nothing(LineTokens(l.rest));
      WordsConcat(PipeTokens(l.pipe), Amps(l.amps) + ([Semi] + LineTokens(l.rest)));
      WordsConcat(Amps(l.amps), [Semi] + LineTokens(l.rest));
      WordsConcat([Semi], LineTokens(l.rest));
    }
  }

  /** Every word of a parsed command stands in the line, as a word of its own. */
  lemma ParsedWords(s: string, w: Lexeme)
    requires ParseText(s).Ok? && w in CmdWords(ParseText(s).cmd)
    ensures LexemeOk(s, w)
  {
    hide ParseLine;
    hide LineTokens;
    hide LineCmd;
    var toks := Lex(s, 0);
    var l := LineSound(toks);
    Nothing(LineTokens(l));
    LineWords(l);
    LexOk(s, 0);
  }

  // ---------------------------------------------------------------- terminating words in place

  /** The string that a C program reads at `i`. */
  function CString(buf: seq<char>, i: nat): string
    decreases |buf| - i
  {
    if i >= |buf| || buf[i] == '\0' then "" else [buf[i]] + CString(buf, i + 1)
  }

  lemma {:induction false} CStringIs(buf: seq<char>, i: nat, text: string)
    requires i + |text| < |buf| && buf[i + |text|] == '\0'
    requires forall k :: 0 <= k < |text| ==> buf[i + k] == text[k] && text[k] != '\0'
    ensures CString(buf, i) == text
    decreases |text|
  {
    if text != "" {
      forall k | 0 <= k < |text| - 1 ensures buf[i + 1 + k] == text[1..][k] && text[1..][k] != '\0' {
        assert buf[i + (k + 1)] == text[k + 1];
      }
      CStringIs(buf, i + 1, text[1..]);
      assert text == [text[0]] + text[1..];
    }
  }

  function Cut(buf: seq<char>, w: Lexeme): (r: seq<char>)
    ensures |r| == |buf|
  {
    if w.end < |buf| then buf[w.end := '\0'] else buf
  }

  function CutAll(buf: seq<char>, args: seq<Lexeme>): (r: seq<char>)
    ensures |r| == |buf|
  {
    if args == [] then buf else Cut(CutAll(buf, args[..|args| - 1]), args[|args| - 1])
  }

  /** `nulterminate`. */
  function Terminated(buf: seq<char>, c: Cmd): (r: seq<char>)
    ensures |r| == |buf|
    decreases c
  {
    match c
    case Exec(args) => CutAll(buf, args)
    case Redir(cmd, file, _) => Cut(Terminated(buf, cmd), file)
    case Pipe(l, r) => Terminated(Terminated(buf, l), r)
    case List(l, r) => Terminated(Terminated(buf, l), r)
    case Back(cmd) => Terminated(buf, cmd)
  }

  ghost predicate EndsAt(words: set<Lexeme>, k: nat) {
    exists w :: w in words && w.end == k
  }

  lemma EndsUnion(a: set<Lexeme>, b: set<Lexeme>, k: nat)
    ensures EndsAt(a + b, k) <==> EndsAt(a, k) || EndsAt(b, k)
  {
  }

  lemma {:induction false} CutAllAt(buf: seq<char>, args: seq<Lexeme>, k: nat)
    requires k < |buf|
    ensures CutAll(buf, args)[k] == if EndsAt(CmdWords(Exec(args)), k) then '\0' else buf[k]
    decreases |args|
  {
    if args != [] {
      var init, last := args[..|args| - 1], args[|args| - 1];
      CutAllAt(buf, init, k);
      assert args == init + [last];
      assert CmdWords(Exec(args)) == CmdWords(Exec(init)) + {last};
      EndsUnion(CmdWords(Exec(init)), {last}, k);
      EndsOne(last, k);
    }
  }

  lemma EndsOne(w: Lexeme, k: nat)
    ensures EndsAt({w}, k) <==> w.end == k
  {
    assert w in {w};
  }

  /** The pass writes a NUL at the end of every word of the command, and nothing else. */
  lemma {:induction false} TerminatedAt(buf: seq<char>, c: Cmd, k: nat)
    requires k < |buf|
    ensures Terminated(buf, c)[k] == if EndsAt(CmdWords(c), k) then '\0' else buf[k]
    decreases c
  {
    match c
    case Exec(args) => CutAllAt(buf, args, k);
    case Redir(cmd, file, _) =>
      TerminatedAt(buf, cmd, k);
      EndsUnion(CmdWords(cmd), {file}, k);
      EndsOne(file, k);
    case Pipe(l, r) =>
      TerminatedAt(buf, l, k);
      TerminatedAt(Terminated(buf, l), r, k);
      EndsUnion(CmdWords(l), CmdWords(r), k);
    case List(l, r) =>
      TerminatedAt(buf, l, k);
      TerminatedAt(Terminated(buf, l), r, k);
      EndsUnion(CmdWords(l), CmdWords(r), k);
    case Back(cmd) => TerminatedAt(buf, cmd, k);
  }

  /** After the pass, every argument and file name of the command reads as its own text. */
  lemma WordsReadBack(s: string, w: Lexeme)
    requires ParseText(s).Ok? && w in CmdWords(ParseText(s).cmd)
    ensures CString(Terminated(s + ['\0'], ParseText(s).cmd), w.start) == w.text
  {
    hide ParseText;
    var c, buf := ParseText(s).cmd, s + ['\0'];
    ParsedWords(s, w);
    var after := Terminated(buf, c);
    forall k | 0 <= k < |w.text| ensures after[w.start + k] == w.text[k] && w.text[k] != '\0' {
      WordKept(s, c, w, w.start + k);
    }
    TerminatedAt(buf, c, w.end);
    assert EndsAt(CmdWords(c), w.end);
    CStringIs(after, w.start, w.text);
  }

  lemma WordKept(s: string, c: Cmd, w: Lexeme, k: nat)
    requires ParseText(s).Ok? && ParseText(s).cmd == c && w in CmdWords(c) && LexemeOk(s, w) && w.start <= k < w.end
    ensures Terminated(s + ['\0'], c)[k] == s[k] && WordChar(s[k])
  {
    hide ParseText;
    TerminatedAt(s + ['\0'], c, k);
    forall v | v in CmdWords(c) ensures v.end != k {
      ParsedWords(s, v);
      EndsOutside(s, v, w);
    }
  }
}
