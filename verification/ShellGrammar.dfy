/**
 The shell's command language: tokens, parsed commands, the recursive-descent parser, and
 a grammar against which the parser is both sound and complete.
 */
module ShellGrammar {

  /** A word or file name: its text and where it stands in the input line. */
  datatype Lexeme = Lexeme(text: string, start: nat, end: nat)

  datatype Token = Bar | Open | Close | Semi | Amp | Less | Great | Append | Word(w: Lexeme)

  /** Parsed commands; a redirection is from a file (`out` false) or to one. */
  datatype Cmd =
    | Exec(args: seq<Lexeme>)
    | Redir(cmd: Cmd, file: Lexeme, out: bool)
    | Pipe(left: Cmd, right: Cmd)
    | List(left: Cmd, right: Cmd)
    | Back(cmd: Cmd)

  const MAX_ARGS: nat := 10

  datatype Error = MissingFile | MissingClose | TooManyArgs | Syntax

  /** A command and the tokens after it, or a panic. */
  datatype Result = Ok(cmd: Cmd, rest: seq<Token>) | Fail(error: Error)

  // ---------------------------------------------------------------- redirections

  datatype Redirection = Redirection(file: Lexeme, out: bool)

  predicate IsRedir(t: Token) {
    t.Less? || t.Great? || t.Append?
  }

  /** Redirections in the order in which they were read: the first is the innermost. */
  function Wrap(cmd: Cmd, reds: seq<Redirection>): Cmd {
    if reds == [] then cmd
    else Redir(Wrap(cmd, reds[..|reds| - 1]), reds[|reds| - 1].file, reds[|reds| - 1].out)
  }

  datatype RedirResult = RedirOk(reds: seq<Redirection>, after: seq<Token>) | RedirFail(error: Error)

  /** `parseredirs`: as many redirections as there are. */
  function ParseRedirs(toks: seq<Token>, reds: seq<Redirection>): (r: RedirResult)
    ensures r.RedirOk? ==> |r.after| <= |toks| && (r.after != [] ==> !IsRedir(r.after[0]))
    decreases |toks|
  {
    if toks == [] || !IsRedir(toks[0]) then RedirOk(reds, toks)
    else if |toks| < 2 || !toks[1].Word? then RedirFail(MissingFile)
    else ParseRedirs(toks[2..], reds + [Redirection(toks[1].w, !toks[0].Less?)])
  }

  // ---------------------------------------------------------------- commands

  /** The tokens that end a simple command: none, or one of `|)&;`. */
  predicate Stops(toks: seq<Token>) {
    toks == [] || toks[0].Bar? || toks[0].Close? || toks[0].Amp? || toks[0].Semi?
  }

  /** The loop of `parseexec`, with the words and redirections so far. */
  function ParseWords(toks: seq<Token>, args: seq<Lexeme>, reds: seq<Redirection>): (r: Result)
    ensures r.Ok? ==> |r.rest| <= |toks|
    decreases |toks|
  {
    var p := ParseRedirs(toks, reds);
    if p.RedirFail? then Fail(p.error)
    else if Stops(p.after) then Ok(Wrap(Exec(args), p.reds), p.after)
    else if !p.after[0].Word? then Fail(Syntax)
    else if |args| + 1 >= MAX_ARGS then Fail(TooManyArgs)
    else ParseWords(p.after[1..], args + [p.after[0].w], p.reds)
  }

  function ParseExec(toks: seq<Token>): (r: Result)
    ensures r.Ok? ==> |r.rest| <= |toks|
    decreases |toks|, 1
  {
    if toks != [] && toks[0].Open? then ParseBlock(toks) else ParseWords(toks, [], [])
  }

  function ParseBlock(toks: seq<Token>): (r: Result)
    requires toks != [] && toks[0].Open?
    ensures r.Ok? ==> |r.rest| < |toks|
    decreases |toks|, 0
  {
    var r := ParseLine(toks[1..]);
    if r.Fail? then r
    else if r.rest == [] || !r.rest[0].Close? then Fail(MissingClose)
    else
      var p := ParseRedirs(r.rest[1..], []);
      if p.RedirFail? then Fail(p.error) else Ok(Wrap(r.cmd, p.reds), p.after)
  }

  function ParsePipe(toks: seq<Token>): (r: Result)
    ensures r.Ok? ==> |r.rest| <= |toks|
    decreases |toks|, 2
  {
    var l := ParseExec(toks);
    if l.Fail? || l.rest == [] || !l.rest[0].Bar? then l
    else
      var r := ParsePipe(l.rest[1..]);
      if r.Fail? then r else Ok(Pipe(l.cmd, r.cmd), r.rest)
  }

  /** The loop over `&` in `parseline`. */
  function ParseAmps(cmd: Cmd, toks: seq<Token>): (r: Result)
    ensures r.Ok? && |r.rest| <= |toks| && (r.rest != [] ==> !r.rest[0].Amp?)
    decreases |toks|
  {
    if toks == [] || !toks[0].Amp? then Ok(cmd, toks) else ParseAmps(Back(cmd), toks[1..])
  }

  function ParseLine(toks: seq<Token>): (r: Result)
    ensures r.Ok? ==> |r.rest| <= |toks|
    decreases |toks|, 3
  {
    var p := ParsePipe(toks);
    if p.Fail? then p
    else
      var l := ParseAmps(p.cmd, p.rest);
      if l.rest == [] || !l.rest[0].Semi? then l
      else
        var r := ParseLine(l.rest[1..]);
        if r.Fail? then r else Ok(List(l.cmd, r.cmd), r.rest)
  }

  /** `parsecmd` on the tokens of a line: nothing may be left over. */
  function ParseCmd(toks: seq<Token>): Result {
    var r := ParseLine(toks);
    if r.Ok? && r.rest != [] then Fail(Syntax) else r
  }

  // ---------------------------------------------------------------- the grammar

  /** A part of a simple command: a word, or a redirection and its file. */
  datatype Item = Arg(w: Lexeme) | Red(sign: Token, file: Lexeme)

  /** item* | '(' line ')' redirection* */
  datatype Simple = Items(items: seq<Item>) | Block(line: Line, reds: seq<Item>)

  /** simple | simple '|' pipeline */
  datatype Pipeline = One(simple: Simple) | More(simple: Simple, rest: Pipeline)

  /** pipeline '&'* | pipeline '&'* ';' line */
  datatype Line = Last(pipe: Pipeline, amps: nat) | Then(pipe: Pipeline, amps: nat, rest: Line)

  function ItemTokens(i: Item): seq<Token> {
    match i case Arg(w) => [Word(w)] case Red(sign, file) => [sign, Word(file)]
  }

  function ItemsTokens(items: seq<Item>): seq<Token> {
    if items == [] then [] else ItemTokens(items[0]) + ItemsTokens(items[1..])
  }

  function SimpleTokens(s: Simple): seq<Token> {
    match s
    case Items(items) => ItemsTokens(items)
    case Block(line, reds) => [Open] + LineTokens(line) + [Close] + ItemsTokens(reds)
  }

  function PipeTokens(p: Pipeline): seq<Token> {
    match p case One(s) => SimpleTokens(s) case More(s, rest) => SimpleTokens(s) + [Bar] + PipeTokens(rest)
  }

  function Amps(n: nat): (r: seq<Token>)
    ensures |r| == n
  {
    seq(n, _ => Amp)
  }

  function LineTokens(l: Line): seq<Token> {
    match l
    case Last(p, n) => PipeTokens(p) + Amps(n)
    case Then(p, n, rest) => PipeTokens(p) + Amps(n) + [Semi] + LineTokens(rest)
  }

  /** The words among the items, and the redirections among them. */
  function ArgsOf(items: seq<Item>): seq<Lexeme> {
    if items == [] then [] else (if items[0].Arg? then [items[0].w] else []) + ArgsOf(items[1..])
  }

  function RedsOf(items: seq<Item>): seq<Redirection> {
    if items == [] then []
      else (if items[0].Red? then [Redirection(items[0].file, !items[0].sign.Less?)] else []) + RedsOf(items[1..])
  }

  /** What a sentence means. */
  function SimpleCmd(s: Simple): Cmd {
    match s
    case Items(items) => Wrap(Exec(ArgsOf(items)), RedsOf(items))
    case Block(line, reds) => Wrap(LineCmd(line), RedsOf(reds))
  }

  function PipeCmd(p: Pipeline): Cmd {
    match p case One(s) => SimpleCmd(s) case More(s, rest) => Pipe(SimpleCmd(s), PipeCmd(rest))
  }

  function Backs(cmd: Cmd, n: nat): Cmd
    decreases n
  {
    if n == 0 then cmd else Backs(Back(cmd), n - 1)
  }

  function LineCmd(l: Line): Cmd {
    match l
    case Last(p, n) => Backs(PipeCmd(p), n)
    case Then(p, n, rest) => List(Backs(PipeCmd(p), n), LineCmd(rest))
  }

  /** Redirection signs are signs, only redirections follow a block, and a command has at most nine words. */
  predicate ItemOk(i: Item) {
    i.Red? ==> IsRedir(i.sign)
  }

  predicate SimpleOk(s: Simple) {
    match s
    case Items(items) => (forall k :: 0 <= k < |items| ==> ItemOk(items[k])) && |ArgsOf(items)| < MAX_ARGS
    case Block(line, reds) => LineOk(line) && forall k :: 0 <= k < |reds| ==> ItemOk(reds[k]) && reds[k].Red?
  }

  predicate PipeOk(p: Pipeline) {
    match p case One(s) => SimpleOk(s) case More(s, rest) => SimpleOk(s) && PipeOk(rest)
  }

  predicate LineOk(l: Line) {
    match l case Last(p, _) => PipeOk(p) case Then(p, _, rest) => PipeOk(p) && LineOk(rest)
  }

  // ---------------------------------------------------------------- completeness

  /** What may follow a line: the end, or the `)` of the block that it is in. */
  predicate LineEnd(post: seq<Token>) {
    post == [] || post[0].Close?
  }

  predicate PipeEnd(post: seq<Token>) {
    LineEnd(post) || post[0].Amp? || post[0].Semi?
  }

  ghost predicate ItemsOk(items: seq<Item>) {
    forall k :: 0 <= k < |items| ==> ItemOk(items[k])
  }

  lemma Assoc<T>(a: seq<T>, b: seq<T>, c: seq<T>)
    ensures (a + b) + c == a + (b + c)
  {
  }

  lemma Nothing<T>(a: seq<T>)
    ensures [] + a == a && a + [] == a
  {
  }

  /** A line of items, taken apart at its first. */
  lemma ItemsUnfold(items: seq<Item>, post: seq<Token>)
    requires items != []
    ensures var toks := ItemsTokens(items) + post;
            && (items[0].Arg? ==> |toks| >= 1 && toks[0] == Word(items[0].w) &&
                                  toks[1..] == ItemsTokens(items[1..]) + post)
            && (items[0].Red? ==> |toks| >= 2 && toks[0] == items[0].sign && toks[1] == Word(items[0].file) &&
                                  toks[2..] == ItemsTokens(items[1..]) + post)
    ensures items[0].Arg? ==> ArgsOf(items) == [items[0].w] + ArgsOf(items[1..]) && RedsOf(items) == RedsOf(items[1..])
    ensures items[0].Red? ==>
              ArgsOf(items) == ArgsOf(items[1..]) &&
                RedsOf(items) == [Redirection(items[0].file, !items[0].sign.Less?)] + RedsOf(items[1..])
  {
    Assoc(ItemTokens(items[0]), ItemsTokens(items[1..]), post);
  }

  lemma ItemsNone(post: seq<Token>)
    ensures ItemsTokens([]) + post == post && ArgsOf([]) == [] && RedsOf([]) == []
  {
  }

  lemma RedirsStep(toks: seq<Token>, reds: seq<Redirection>)
    requires |toks| >= 2 && IsRedir(toks[0]) && toks[1].Word?
    ensures ParseRedirs(toks, reds) == ParseRedirs(toks[2..], reds + [Redirection(toks[1].w, !toks[0].Less?)])
  {
  }

  lemma RedirsNone(toks: seq<Token>, reds: seq<Redirection>)
    requires toks == [] || !IsRedir(toks[0])
    ensures ParseRedirs(toks, reds) == RedirOk(reds, toks)
  {
  }

  lemma {:induction false} RedirsComplete(items: seq<Item>, reds: seq<Redirection>, post: seq<Token>)
    requires ItemsOk(items) && (forall k :: 0 <= k < |items| ==> items[k].Red?) && (post == [] || !IsRedir(post[0]))
    ensures ParseRedirs(ItemsTokens(items) + post, reds) == RedirOk(reds + RedsOf(items), post)
    decreases |items|
  {
    hide ParseRedirs;
    hide ItemsTokens;
    hide RedsOf;
    hide ArgsOf;
    if items == [] {
      ItemsNone(post);
      Nothing(reds);
      RedirsNone(post, reds);
    } else {
      var r := Redirection(items[0].file, !items[0].sign.Less?);
      ItemsUnfold(items, post);
      RedirsStep(ItemsTokens(items) + post, reds);
      RedirsComplete(items[1..], reds + [r], post);
      Assoc(reds, [r], RedsOf(items[1..]));
    }
  }

  /** A redirection at the front is read first. */
  lemma RedirFirst(toks: seq<Token>, args: seq<Lexeme>, reds: seq<Redirection>)
    requires |toks| >= 2 && IsRedir(toks[0]) && toks[1].Word?
    ensures ParseWords(toks, args, reds) == ParseWords(toks[2..], args, reds + [Redirection(toks[1].w, !toks[0].Less?)])
  {
  }

  lemma WordFirst(toks: seq<Token>, args: seq<Lexeme>, reds: seq<Redirection>)
    requires toks != [] && toks[0].Word? && |args| + 1 < MAX_ARGS
    ensures ParseWords(toks, args, reds) == ParseWords(toks[1..], args + [toks[0].w], reds)
  {
  }

  lemma StopFirst(toks: seq<Token>, args: seq<Lexeme>, reds: seq<Redirection>)
    requires Stops(toks)
    ensures ParseWords(toks, args, reds) == Ok(Wrap(Exec(args), reds), toks)
  {
  }

  lemma {:induction false} WordsComplete(items: seq<Item>, args: seq<Lexeme>, reds: seq<Redirection>, post: seq<Token>)
    requires ItemsOk(items) && |args| + |ArgsOf(items)| < MAX_ARGS && Stops(post)
    ensures ParseWords(ItemsTokens(items) + post, args, reds) ==
              Ok(Wrap(Exec(args + ArgsOf(items)), reds + RedsOf(items)), post)
    decreases |items|
  {
    hide ParseWords;
    hide ItemsTokens;
    hide RedsOf;
    hide ArgsOf;
    hide Wrap;
    hide Stops;
    var toks := ItemsTokens(items) + post;
    if items == [] {
      ItemsNone(post);
      Nothing(reds);
      Nothing(args);
      StopFirst(post, args, reds);
    } else if items[0].Arg? {
      ItemsUnfold(items, post);
      WordFirst(toks, args, reds);
      WordsComplete(items[1..], args + [items[0].w], reds, post);
      Assoc(args, [items[0].w], ArgsOf(items[1..]));
    } else {
      var r := Redirection(items[0].file, !items[0].sign.Less?);
      ItemsUnfold(items, post);
      RedirFirst(toks, args, reds);
      WordsComplete(items[1..], args, reds + [r], post);
      Assoc(reds, [r], RedsOf(items[1..]));
    }
  }

  lemma {:induction false} AmpsComplete(cmd: Cmd, n: nat, post: seq<Token>)
    requires post == [] || !post[0].Amp?
    ensures ParseAmps(cmd, Amps(n) + post) == Ok(Backs(cmd, n), post)
    decreases n
  {
    if n == 0 {
      assert Amps(0) + post == post;
    } else {
      AmpsComplete(Back(cmd), n - 1, post);
      assert (Amps(n) + post)[1..] == Amps(n - 1) + post;
    }
  }

  lemma {:induction false} SimpleComplete(s: Simple, post: seq<Token>)
    requires SimpleOk(s) && Stops(post)
    ensures ParseExec(SimpleTokens(s) + post) == Ok(SimpleCmd(s), post)
    decreases s
  {
    hide ParseWords;
    hide ParseRedirs;
    hide ParseLine;
    hide ItemsTokens;
    hide Wrap;
    match s
    case Items(items) =>
      WordsComplete(items, [], [], post);
      Nothing(ArgsOf(items));
      Nothing(RedsOf(items));
      ItemsStart(items, post);
    case Block(line, reds) =>
      var after := ItemsTokens(reds) + post;
      LineComplete(line, [Close] + after);
      BlockTokens(line, reds, post);
      RedirsComplete(reds, [], post);
      Nothing(RedsOf(reds));
  }

  lemma BlockTokens(line: Line, reds: seq<Item>, post: seq<Token>)
    ensures SimpleTokens(Block(line, reds)) + post ==
              [Open] + (LineTokens(line) + ([Close] + (ItemsTokens(reds) + post)))
  {
    hide LineTokens;
    hide ItemsTokens;
  }

  lemma ItemsStart(items: seq<Item>, post: seq<Token>)
    requires ItemsOk(items) && Stops(post)
    ensures var toks := ItemsTokens(items) + post; toks == [] || !toks[0].Open?
  {
  }

  lemma PipeUnfold(s: Simple, rest: Pipeline, post: seq<Token>)
    ensures PipeTokens(More(s, rest)) + post == SimpleTokens(s) + ([Bar] + (PipeTokens(rest) + post))
  {
    hide SimpleTokens;
  }

  lemma {:induction false} PipeComplete(p: Pipeline, post: seq<Token>)
    requires PipeOk(p) && PipeEnd(post)
    ensures ParsePipe(PipeTokens(p) + post) == Ok(PipeCmd(p), post)
    decreases p
  {
    hide ParseExec;
    hide SimpleTokens;
    hide SimpleCmd;
    match p
    case One(s) => SimpleComplete(s, post);
    case More(s, rest) =>
      SimpleComplete(s, [Bar] + (PipeTokens(rest) + post));
      PipeUnfold(s, rest, post);
      PipeComplete(rest, post);
      PipeStep(SimpleTokens(s) + ([Bar] + (PipeTokens(rest) + post)), SimpleCmd(s), PipeTokens(rest) + post);
  }

  lemma PipeStep(toks: seq<Token>, cmd: Cmd, after: seq<Token>)
    requires ParseExec(toks) == Ok(cmd, [Bar] + after) && ParsePipe(after).Ok?
    ensures ParsePipe(toks) == Ok(Pipe(cmd, ParsePipe(after).cmd), ParsePipe(after).rest)
  {
    hide ParseExec;
    assert ([Bar] + after)[1..] == after;
  }

  lemma LineUnfold(l: Line, post: seq<Token>)
    ensures l.Last? ==> LineTokens(l) + post == PipeTokens(l.pipe) + (Amps(l.amps) + post)
    ensures l.Then? ==>
              LineTokens(l) + post == PipeTokens(l.pipe) + (Amps(l.amps) + ([Semi] + (LineTokens(l.rest) + post)))
  {
    hide PipeTokens;
    hide Amps;
  }

  lemma {:induction false} LineComplete(l: Line, post: seq<Token>)
    requires LineOk(l) && LineEnd(post)
    ensures ParseLine(LineTokens(l) + post) == Ok(LineCmd(l), post)
    decreases l
  {
    hide ParsePipe;
    hide ParseAmps;
    hide PipeTokens;
    hide PipeCmd;
    hide Backs;
    LineUnfold(l, post);
    match l
    case Last(p, n) =>
      AmpsEnd(n, post);
      PipeComplete(p, Amps(n) + post);
      AmpsComplete(PipeCmd(p), n, post);
    case Then(p, n, rest) =>
      var after := LineTokens(rest) + post;
      AmpsEnd(n, [Semi] + after);
      PipeComplete(p, Amps(n) + ([Semi] + after));
      AmpsComplete(PipeCmd(p), n, [Semi] + after);
      LineComplete(rest, post);
      assert ([Semi] + after)[1..] == after;
  }

  lemma AmpsEnd(n: nat, post: seq<Token>)
    requires PipeEnd(post)
    ensures PipeEnd(Amps(n) + post)
  {
    if n == 0 { Nothing(post); }
  }

  /** Every sentence of the grammar is parsed, to what it means. */
  lemma Complete(l: Line)
    requires LineOk(l)
    ensures ParseCmd(LineTokens(l)) == Ok(LineCmd(l), [])
  {
    LineComplete(l, []);
    assert LineTokens(l) + [] == LineTokens(l);
  }

  // ---------------------------------------------------------------- soundness

  lemma ItemsFold(item: Item, items: seq<Item>, post: seq<Token>)
    ensures ItemsTokens([item] + items) + post == ItemTokens(item) + (ItemsTokens(items) + post)
    ensures ArgsOf([item] + items) == (if item.Arg? then [item.w] else []) + ArgsOf(items)
    ensures RedsOf([item] + items) ==
              (if item.Red? then [Redirection(item.file, !item.sign.Less?)] else []) + RedsOf(items)
  {
    assert ([item] + items)[1..] == items;
    Assoc(ItemTokens(item), ItemsTokens(items), post);
  }

  ghost predicate AllReds(items: seq<Item>) {
    forall k :: 0 <= k < |items| ==> items[k].Red?
  }

  lemma {:induction false} RedirsSound(toks: seq<Token>, reds: seq<Redirection>) returns (items: seq<Item>)
    requires ParseRedirs(toks, reds).RedirOk?
    ensures ItemsOk(items) && AllReds(items)
    ensures toks == ItemsTokens(items) + ParseRedirs(toks, reds).after &&
              ParseRedirs(toks, reds).reds == reds + RedsOf(items)
    decreases |toks|
  {
    if toks == [] || !IsRedir(toks[0]) {
      items := [];
      ItemsNone(toks);
      Nothing(reds);
    } else {
      RedirsStep(toks, reds);
      var r := Redirection(toks[1].w, !toks[0].Less?);
      var rest := RedirsSound(toks[2..], reds + [r]);
      hide ParseRedirs;
      hide ItemsTokens;
      hide RedsOf;
      hide ArgsOf;
      var item := Red(toks[0], toks[1].w);
      items := [item] + rest;
      ItemsFold(item, rest, ParseRedirs(toks, reds).after);
      Assoc(reds, [r], RedsOf(rest));
      assert toks == [toks[0], toks[1]] + toks[2..];
    }
  }

  lemma {:induction false} WordsSound(toks: seq<Token>, args: seq<Lexeme>, reds: seq<Redirection>)
    returns (items: seq<Item>)
    requires ParseWords(toks, args, reds).Ok? && |args| < MAX_ARGS
    ensures ItemsOk(items) && |args| + |ArgsOf(items)| < MAX_ARGS
    ensures var r := ParseWords(toks, args, reds);
            toks == ItemsTokens(items) + r.rest && r.cmd == Wrap(Exec(args + ArgsOf(items)), reds + RedsOf(items)) &&
              Stops(r.rest)
    decreases |toks|
  {
    hide ParseWords;
    hide ItemsTokens;
    hide RedsOf;
    hide ArgsOf;
    hide Wrap;
    WordsCases(toks, args, reds);
    if Stops(toks) {
      items := [];
      StopFirst(toks, args, reds);
      ItemsNone(toks);
      Nothing(reds);
      Nothing(args);
    } else if toks[0].Word? {
      WordFirst(toks, args, reds);
      var rest := WordsSound(toks[1..], args + [toks[0].w], reds);
      items := [Arg(toks[0].w)] + rest;
      ItemsFold(Arg(toks[0].w), rest, ParseWords(toks, args, reds).rest);
      Assoc(args, [toks[0].w], ArgsOf(rest));
      Nothing(RedsOf(rest));
      assert toks == [toks[0]] + toks[1..];
    } else {
      RedirFirst(toks, args, reds);
      var r := Redirection(toks[1].w, !toks[0].Less?);
      var rest := WordsSound(toks[2..], args, reds + [r]);
      items := [Red(toks[0], toks[1].w)] + rest;
      ItemsFold(Red(toks[0], toks[1].w), rest, ParseWords(toks, args, reds).rest);
      Assoc(reds, [r], RedsOf(rest));
      Nothing(ArgsOf(rest));
      assert toks == [toks[0], toks[1]] + toks[2..];
    }
  }

  /** A simple command that is accepted starts with a word or a redirection, or is empty. */
  lemma WordsCases(toks: seq<Token>, args: seq<Lexeme>, reds: seq<Redirection>)
    requires ParseWords(toks, args, reds).Ok?
    ensures Stops(toks) || (toks[0].Word? && |args| + 1 < MAX_ARGS) ||
              (|toks| >= 2 && IsRedir(toks[0]) && toks[1].Word?)
  {
  }

  lemma {:induction false} SimpleSound(toks: seq<Token>) returns (s: Simple)
    requires ParseExec(toks).Ok?
    ensures SimpleOk(s) && toks == SimpleTokens(s) + ParseExec(toks).rest && ParseExec(toks).cmd == SimpleCmd(s)
    decreases |toks|, 0
  {
    hide ParseWords;
    hide ParseRedirs;
    hide ParseLine;
    hide ItemsTokens;
    hide Wrap;
    if toks != [] && toks[0].Open? {
      var r := ParseLine(toks[1..]);
      var line := LineSound(toks[1..]);
      var p := ParseRedirs(r.rest[1..], []);
      var reds := RedirsSound(r.rest[1..], []);
      s := Block(line, reds);
      BlockTokens(line, reds, p.after);
      Nothing(RedsOf(reds));
      assert r.rest == [Close] + r.rest[1..];
      assert toks == [Open] + toks[1..];
    } else {
      var items := WordsSound(toks, [], []);
      s := Items(items);
      Nothing(ArgsOf(items));
      Nothing(RedsOf(items));
    }
  }

  lemma {:induction false} PipeSound(toks: seq<Token>) returns (p: Pipeline)
    requires ParsePipe(toks).Ok?
    ensures PipeOk(p) && toks == PipeTokens(p) + ParsePipe(toks).rest && ParsePipe(toks).cmd == PipeCmd(p)
    decreases |toks|, 1
  {
    hide ParseExec;
    hide SimpleTokens;
    hide SimpleCmd;
    var l := ParseExec(toks);
    var s := SimpleSound(toks);
    if l.rest == [] || !l.rest[0].Bar? {
      p := One(s);
    } else {
      var rest := PipeSound(l.rest[1..]);
      p := More(s, rest);
      PipeUnfold(s, rest, ParsePipe(toks).rest);
      assert l.rest == [Bar] + l.rest[1..];
    }
  }

  lemma {:induction false} AmpsSound(cmd: Cmd, toks: seq<Token>) returns (n: nat)
    ensures toks == Amps(n) + ParseAmps(cmd, toks).rest && ParseAmps(cmd, toks).cmd == Backs(cmd, n)
    decreases |toks|
  {
    if toks == [] || !toks[0].Amp? {
      n := 0;
      assert Amps(0) == [];
    } else {
      var m := AmpsSound(Back(cmd), toks[1..]);
      n := m + 1;
      assert Amps(n) == [Amp] + Amps(m);
      assert toks == [Amp] + toks[1..];
    }
  }

  lemma {:induction false} LineSound(toks: seq<Token>) returns (l: Line)
    requires ParseLine(toks).Ok?
    ensures LineOk(l) && toks == LineTokens(l) + ParseLine(toks).rest && ParseLine(toks).cmd == LineCmd(l)
    decreases |toks|, 2
  {
    hide ParsePipe;
    hide ParseAmps;
    hide PipeTokens;
    hide PipeCmd;
    hide Backs;
    hide Amps;
    var p := PipeSound(toks);
    var r := ParsePipe(toks);
    var n := AmpsSound(r.cmd, r.rest);
    var after := ParseAmps(r.cmd, r.rest).rest;
    if after == [] || !after[0].Semi? {
      l := Last(p, n);
    } else {
      var rest := LineSound(after[1..]);
      l := Then(p, n, rest);
      assert after == [Semi] + after[1..];
    }
    LineUnfold(l, ParseLine(toks).rest);
  }

  /** The parser accepts exactly the sentences of the grammar, and gives exactly what they mean. */
  lemma ParserExact(toks: seq<Token>, cmd: Cmd)
    ensures ParseCmd(toks) == Ok(cmd, []) <==> exists l :: LineOk(l) && LineTokens(l) == toks && LineCmd(l) == cmd
  {
    hide ParseLine;
    hide LineCmd;
    hide LineTokens;
    hide LineOk;
    if ParseCmd(toks) == Ok(cmd, []) {
      var l := LineSound(toks);
      Nothing(LineTokens(l));
      assert LineOk(l) && LineTokens(l) == toks && LineCmd(l) == cmd;
    }
    if exists l :: LineOk(l) && LineTokens(l) == toks && LineCmd(l) == cmd {
      var l :| LineOk(l) && LineTokens(l) == toks && LineCmd(l) == cmd;
      Complete(l);
    }
  }

  /** No token sequence has two meanings. */
  lemma Unambiguous(l: Line, l': Line)
    requires LineOk(l) && LineOk(l') && LineTokens(l) == LineTokens(l')
    ensures LineCmd(l) == LineCmd(l')
  {
    Complete(l);
    Complete(l');
  }
}
