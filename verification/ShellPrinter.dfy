/** A canonical printing of commands, from which the shell's parser gives every command back. */
module ShellPrinter {
  import opened ShellGrammar
  import opened ShellText

  /** A command by its texts alone. */
  datatype Tree =
    | TExec(words: seq<string>)
    | TRedir(tree: Tree, file: string, out: bool)
    | TPipe(left: Tree, right: Tree)
    | TList(left: Tree, right: Tree)
    | TBack(tree: Tree)

  /** A command, without where its words stand. */
  function Texts(c: Cmd): Tree {
    match c
    case Exec(args) => TExec(seq(|args|, k requires 0 <= k < |args| => args[k].text))
    case Redir(cmd, file, out) => TRedir(Texts(cmd), file.text, out)
    case Pipe(l, r) => TPipe(Texts(l), Texts(r))
    case List(l, r) => TList(Texts(l), Texts(r))
    case Back(cmd) => TBack(Texts(cmd))
  }

  predicate IsWord(text: string) {
    |text| > 0 && forall k :: 0 <= k < |text| ==> WordChar(text[k])
  }

  /** Words are words, and no command has more than nine. */
  predicate TreeOk(t: Tree) {
    match t
    case TExec(words) => |words| < MAX_ARGS && forall k :: 0 <= k < |words| ==> IsWord(words[k])
    case TRedir(tree, file, _) => TreeOk(tree) && IsWord(file)
    case TPipe(l, r) => TreeOk(l) && TreeOk(r)
    case TList(l, r) => TreeOk(l) && TreeOk(r)
    case TBack(tree) => TreeOk(tree)
  }

  // ---------------------------------------------------------------- tokens as text

  function TokenText(t: Token): string {
    match t
    case Bar => "|" case Open => "(" case Close => ")" case Semi => ";" case Amp => "&"
    case Less => "<" case Great => ">" case Append => ">>" case Word(w) => w.text
  }

  /** Every token, followed by a space. */
  function Render(toks: seq<Token>): string {
    if toks == [] then "" else TokenText(toks[0]) + " " + Render(toks[1..])
  }

  function Width(toks: seq<Token>): nat {
    if toks == [] then 0 else |TokenText(toks[0])| + 1 + Width(toks[1..])
  }

  /** The words among the tokens know where they stand when the tokens are rendered from `pos` on. */
  ghost predicate Placed(toks: seq<Token>, pos: nat) {
    toks == [] || (TokenPlaced(toks[0], pos) && Placed(toks[1..], pos + |TokenText(toks[0])| + 1))
  }

  ghost predicate TokenPlaced(t: Token, pos: nat) {
    t.Word? ==> IsWord(t.w.text) && t.w.start == pos && t.w.end == pos + |t.w.text|
  }

  lemma {:induction false} PlacedConcat(a: seq<Token>, b: seq<Token>, pos: nat)
    requires Placed(a, pos) && Placed(b, pos + Width(a))
    ensures Placed(a + b, pos)
    decreases |a|
  {
    if a == [] {
      Nothing(b);
    } else {
      PlacedConcat(a[1..], b, pos + |TokenText(a[0])| + 1);
      assert (a + b)[1..] == a[1..] + b;
    }
  }

  // ---------------------------------------------------------------- reading tokens back

  lemma WordEndIs(s: string, i: nat, n: nat)
    requires i + n <= |s| && (forall k :: i <= k < i + n ==> WordChar(s[k])) && (i + n < |s| ==> !WordChar(s[i + n]))
    ensures WordEnd(s, i) == i + n
  {
  }

  /** What comes at `e` cannot be taken for more of token `t`. */
  ghost predicate Stops(s: string, e: nat, t: Token) {
    && e <= |s|
    && (e < |s| && t.Word? ==> !WordChar(s[e]))
    && (e < |s| && t.Great? ==> s[e] != '>')
  }

  /** A token is found where it was put. */
  lemma TokenFound(s: string, pos: nat, t: Token)
    requires TokenPlaced(t, pos) && Stops(s, pos + |TokenText(t)|, t)
    requires s[pos..pos + |TokenText(t)|] == TokenText(t)
    ensures pos <= |s| && SkipSpace(s, pos) == pos && TokenAt(s, pos) == Found(t, pos + |TokenText(t)|)
  {
    if t.Word? {
      WordFound(s, pos, t.w);
    } else {
      SymbolFound(s, pos, t);
    }
  }

  lemma WordFound(s: string, pos: nat, w: Lexeme)
    requires TokenPlaced(Word(w), pos) && Stops(s, pos + |w.text|, Word(w)) && s[pos..pos + |w.text|] == w.text
    ensures SkipSpace(s, pos) == pos && TokenAt(s, pos) == Found(Word(w), pos + |w.text|)
  {
    var n := |w.text|;
    forall k | pos <= k < pos + n ensures WordChar(s[k]) {
      assert s[pos..pos + n][k - pos] == s[k];
      assert WordChar(w.text[k - pos]);
    }
    WordEndIs(s, pos, n);
    assert WordChar(s[pos]);
  }

  lemma SymbolFound(s: string, pos: nat, t: Token)
    requires !t.Word? && Stops(s, pos + |TokenText(t)|, t) && s[pos..pos + |TokenText(t)|] == TokenText(t)
    ensures SkipSpace(s, pos) == pos && TokenAt(s, pos) == Found(t, pos + |TokenText(t)|)
  {
    var n := |TokenText(t)|;
    assert s[pos] == s[pos..pos + n][0];
    assert n > 1 ==> s[pos + 1] == s[pos..pos + n][1];
  }

  lemma LexAfter(s: string, i: nat)
    requires i < |s| && IsSpace(s[i])
    ensures Lex(s, i) == Lex(s, i + 1)
  {
  }

  /** Rendering and then reading gives the tokens back. */
  lemma {:induction false} LexRender(s: string, pos: nat, toks: seq<Token>)
    requires Placed(toks, pos) && pos <= |s| && s[pos..] == Render(toks)
    ensures Lex(s, pos) == toks
    decreases |toks|
  {
    if toks == [] {
      assert pos == |s|;
    } else {
      var t, n := toks[0], |TokenText(toks[0])|;
      var text := TokenText(t) + " " + Render(toks[1..]);
      assert s[pos..] == text;
      assert s[pos..pos + n] == text[..n] == TokenText(t);
      assert s[pos + n] == text[n] == ' ';
      assert s[pos + n + 1..] == text[n + 1..] == Render(toks[1..]);
      TokenFound(s, pos, t);
      LexAfter(s, pos + n);
      LexRender(s, pos + n + 1, toks[1..]);
    }
  }

  // ---------------------------------------------------------------- every spelling of a line

  ghost predicate AllSpace(gap: string) {
    forall k :: 0 <= k < |gap| ==> IsSpace(gap[k])
  }

  /** Two tokens that would run together. */
  predicate NeedGap(a: Token, b: Token) {
    (a.Word? && b.Word?) || (a.Great? && (b.Great? || b.Append?))
  }

  /** The tokens with these gaps before, between and after them. */
  function Spell(toks: seq<Token>, gaps: seq<string>): string
    requires |gaps| == |toks| + 1
  {
    if toks == [] then gaps[0] else gaps[0] + (TokenText(toks[0]) + Spell(toks[1..], gaps[1..]))
  }

  /** There are spaces in the gaps, and some where they are needed; the words know where they then stand. */
  ghost predicate Spelling(toks: seq<Token>, gaps: seq<string>, pos: nat)
    requires |gaps| == |toks| + 1
  {
    && AllSpace(gaps[0])
    && (toks != [] ==>
         && TokenPlaced(toks[0], pos + |gaps[0]|)
         && (|toks| > 1 && NeedGap(toks[0], toks[1]) ==> gaps[1] != "")
         && Spelling(toks[1..], gaps[1..], pos + |gaps[0]| + |TokenText(toks[0])|))
  }

  lemma SkipGap(s: string, i: nat, n: nat)
    requires i + n <= |s| && (forall k :: i <= k < i + n ==> IsSpace(s[k])) && (i + n < |s| ==> !IsSpace(s[i + n]))
    ensures SkipSpace(s, i) == i + n
  {
  }

  lemma TokenStarts(t: Token)
    requires t.Word? ==> IsWord(t.w.text)
    ensures |TokenText(t)| > 0 && !IsSpace(TokenText(t)[0])
    ensures !t.Word? ==> !WordChar(TokenText(t)[0])
    ensures TokenText(t)[0] == '>' <==> t.Great? || t.Append?
  {
  }

  /** What a spelling begins with: a space, a token that can follow, or nothing. */
  lemma SpellStops(t: Token, toks: seq<Token>, gaps: seq<string>, pos: nat)
    requires |gaps| == |toks| + 1 && Spelling(toks, gaps, pos) && (toks != [] && NeedGap(t, toks[0]) ==> gaps[0] != "")
    ensures Stops(Spell(toks, gaps), 0, t)
  {
    if gaps[0] != "" {
      assert Spell(toks, gaps)[0] == gaps[0][0];
    } else if toks != [] {
      TokenStarts(toks[0]);
      assert Spell(toks, gaps)[0] == TokenText(toks[0])[0];
    }
  }

  /** However a line is spaced, as long as no two tokens run together, its tokens are read back. */
  lemma {:induction false} LexSpell(s: string, pos: nat, toks: seq<Token>, gaps: seq<string>)
    requires |gaps| == |toks| + 1 && Spelling(toks, gaps, pos) && pos <= |s| && s[pos..] == Spell(toks, gaps)
    ensures Lex(s, pos) == toks
    decreases |toks|
  {
    hide Lex;
    hide TokenAt;
    hide IsSpace;
    hide TokenPlaced;
    hide TokenText;
    if toks == [] {
      GapSkipped(s, pos, gaps[0], "");
      LexEnd(s, pos);
    } else {
      var t, text, rest := toks[0], TokenText(toks[0]), Spell(toks[1..], gaps[1..]);
      var j := pos + |gaps[0]|;
      PlacedStarts(t, j);
      TailOf(s, pos, gaps[0], text, rest);
      GapSkipped(s, pos, gaps[0], text + rest);
      SpellStops(t, toks[1..], gaps[1..], j + |text|);
      LexSpell(s, j + |text|, toks[1..], gaps[1..]);
      hide Spell;
      hide Spelling;
      StopsLater(s, j + |text|, rest, t);
      TokenFound(s, j, t);
      LexFound(s, pos, j, t, j + |text|);
    }
  }

  lemma PlacedStarts(t: Token, pos: nat)
    requires TokenPlaced(t, pos)
    ensures |TokenText(t)| > 0 && !IsSpace(TokenText(t)[0])
  {
  }

  lemma StopsLater(s: string, e: nat, rest: string, t: Token)
    requires e <= |s| && s[e..] == rest && Stops(rest, 0, t)
    ensures Stops(s, e, t)
  {
    assert e < |s| ==> s[e] == rest[0];
  }

  lemma GapSkipped(s: string, pos: nat, gap: string, rest: string)
    requires pos <= |s| && s[pos..] == gap + rest && AllSpace(gap) && (rest != "" ==> !IsSpace(rest[0]))
    ensures SkipSpace(s, pos) == pos + |gap|
  {
    forall k | pos <= k < pos + |gap| ensures IsSpace(s[k]) {
      assert s[k] == s[pos..][k - pos] == gap[k - pos];
    }
    assert rest != "" ==> s[pos + |gap|] == s[pos..][|gap|] == rest[0];
    SkipGap(s, pos, |gap|);
  }

  lemma TailOf(s: string, pos: nat, a: string, b: string, c: string)
    requires pos <= |s| && s[pos..] == a + (b + c)
    ensures pos + |a| + |b| <= |s| && s[pos..pos + |a|] == a && s[pos + |a|..pos + |a| + |b|] == b
    ensures s[pos + |a| + |b|..] == c
    ensures |c| > 0 ==> pos + |a| + |b| < |s| && s[pos + |a| + |b|] == c[0]
    ensures |b| > 0 ==> s[pos + |a|] == b[0]
  {
    var all := a + (b + c);
    assert forall k :: 0 <= k < |all| ==> s[pos..][k] == s[pos + k];
    assert s[pos..pos + |a|] == all[..|a|] == a;
    assert s[pos + |a|..pos + |a| + |b|] == all[|a|..|a| + |b|] == b;
    assert s[pos + |a| + |b|..] == all[|a| + |b|..] == c;
  }

  lemma LexEnd(s: string, i: nat)
    requires i <= |s| && SkipSpace(s, i) == |s|
    ensures Lex(s, i) == []
  {
  }

  lemma LexFound(s: string, i: nat, j: nat, t: Token, next: nat)
    requires i <= |s| && SkipSpace(s, i) == j && TokenAt(s, j) == Found(t, next)
    ensures next <= |s| && Lex(s, i) == [t] + Lex(s, next)
  {
  }

  /** The gaps between the tokens that are read. */
  ghost function Gaps(s: string, i: nat): (gaps: seq<string>)
    requires i <= |s|
    ensures |gaps| == |Lex(s, i)| + 1
    decreases |s| - i
  {
    var j := SkipSpace(s, i);
    var r := TokenAt(s, j);
    if r.End? then [s[i..j]] else [s[i..j]] + Gaps(s, r.next)
  }

  /** A token found is what stands there, and what follows is not more of it. */
  lemma FoundSpells(s: string, j: nat)
    requires j < |s| && !IsSpace(s[j]) && IsText(s)
    ensures var r := TokenAt(s, j);
            && r.Found? && TokenPlaced(r.token, j) && r.next == j + |TokenText(r.token)| <= |s|
            && s[j..r.next] == TokenText(r.token) && Stops(s, r.next, r.token)
  {
    var r := TokenAt(s, j);
    if WordChar(s[j]) {
      assert WordEnd(s, j) > j;
    } else if s[j] == '>' && j + 1 < |s| && s[j + 1] == '>' {
      assert s[j..j + 2] == ">>";
    } else {
      assert s[j..j + 1] == [s[j]];
    }
  }

  /** Every line is a spelling of the tokens that are read from it: nothing is passed over but spaces. */
  lemma {:induction false} SpellLex(s: string, i: nat)
    requires IsText(s) && i <= |s|
    ensures Spelling(Lex(s, i), Gaps(s, i), i) && Spell(Lex(s, i), Gaps(s, i)) == s[i..]
    decreases |s| - i
  {
    hide TokenAt;
    hide Lex;
    hide Gaps;
    hide Spell;
    hide Spelling;
    hide IsText;
    SpaceBetween(s, i);
    var j := SkipSpace(s, i);
    if j == |s| {
      SpellEnd(s, i);
    } else {
      FoundSpells(s, j);
      var r := TokenAt(s, j);
      SpellLex(s, r.next);
      LexFound(s, i, j, r.token, r.next);
      GapsFound(s, i);
      SpellBefore(s, i, j, r.next, r.token, Lex(s, r.next), Gaps(s, r.next));
    }
  }

  lemma SpellEnd(s: string, i: nat)
    requires i <= |s| && SkipSpace(s, i) == |s|
    ensures Spelling(Lex(s, i), Gaps(s, i), i) && Spell(Lex(s, i), Gaps(s, i)) == s[i..]
  {
    LexEnd(s, i);
  }

  lemma GapsFound(s: string, i: nat)
    requires i <= |s| && TokenAt(s, SkipSpace(s, i)).Found?
    ensures Gaps(s, i) == [s[i..SkipSpace(s, i)]] + Gaps(s, TokenAt(s, SkipSpace(s, i)).next)
  {
  }

  lemma SpellBefore(s: string, i: nat, j: nat, e: nat, t: Token, toks: seq<Token>, gaps: seq<string>)
    requires i <= j <= e <= |s| && |gaps| == |toks| + 1 && AllSpace(s[i..j]) && TokenPlaced(t, j)
    requires e == j + |TokenText(t)| && s[j..e] == TokenText(t) && Stops(s, e, t)
    requires Spelling(toks, gaps, e) && Spell(toks, gaps) == s[e..]
    ensures Spelling([t] + toks, [s[i..j]] + gaps, i) && Spell([t] + toks, [s[i..j]] + gaps) == s[i..]
  {
    hide *;
    if toks != [] && NeedGap(t, toks[0]) { GapThere(s, e, t, toks, gaps); }
    SpellMore(s[i..j], t, toks, gaps, i);
    assert s[i..] == s[i..j] + (s[j..e] + s[e..]);
  }

  lemma SpaceBetween(s: string, i: nat)
    requires i <= |s|
    ensures AllSpace(s[i..SkipSpace(s, i)])
  {
  }

  lemma GapThere(s: string, e: nat, t: Token, toks: seq<Token>, gaps: seq<string>)
    requires Stops(s, e, t) && toks != [] && |gaps| == |toks| + 1 && Spelling(toks, gaps, e) && NeedGap(t, toks[0])
    requires Spell(toks, gaps) == s[e..]
    ensures gaps[0] != ""
  {
    TokenStarts(toks[0]);
    FirstOf(toks, gaps);
    assert Spell(toks, gaps)[0] == s[e];
  }

  lemma FirstOf(toks: seq<Token>, gaps: seq<string>)
    requires toks != [] && |gaps| == |toks| + 1 && |TokenText(toks[0])| > 0
    ensures |Spell(toks, gaps)| > 0 && (gaps[0] == "" ==> Spell(toks, gaps)[0] == TokenText(toks[0])[0])
  {
  }

  /** A gap and a token before a spelling. */
  lemma SpellMore(gap: string, t: Token, toks: seq<Token>, gaps: seq<string>, pos: nat)
    requires |gaps| == |toks| + 1 && AllSpace(gap) && TokenPlaced(t, pos + |gap|)
    requires toks != [] && NeedGap(t, toks[0]) ==> gaps[0] != ""
    requires Spelling(toks, gaps, pos + |gap| + |TokenText(t)|)
    ensures Spelling([t] + toks, [gap] + gaps, pos)
    ensures Spell([t] + toks, [gap] + gaps) == gap + (TokenText(t) + Spell(toks, gaps))
  {
    hide TokenText;
    hide TokenPlaced;
    hide NeedGap;
    hide AllSpace;
    assert ([t] + toks)[1..] == toks && ([gap] + gaps)[1..] == gaps;
  }

  /** The line is the tokens, spaced in some way that keeps them apart. */
  ghost predicate Spells(s: string, toks: seq<Token>) {
    exists gaps: seq<string> :: SpelledBy(s, toks, gaps)
  }

  ghost predicate SpelledBy(s: string, toks: seq<Token>, gaps: seq<string>) {
    |gaps| == |toks| + 1 && Spelling(toks, gaps, 0) && s == Spell(toks, gaps)
  }

  /** The tokens of a line are exactly those that it spells. */
  lemma LexExactly(s: string, toks: seq<Token>)
    requires IsText(s)
    ensures Lex(s, 0) == toks <==> Spells(s, toks)
  {
    assert s[0..] == s;
    SpellLex(s, 0);
    assert SpelledBy(s, Lex(s, 0), Gaps(s, 0));
    if gaps :| SpelledBy(s, toks, gaps) { LexSpell(s, 0, toks, gaps); }
  }

  function Join(toks: seq<Token>): string {
    if toks == [] then "" else TokenText(toks[0]) + Join(toks[1..])
  }

  function Squeeze(s: string): string {
    if s == "" then "" else (if IsSpace(s[0]) then "" else [s[0]]) + Squeeze(s[1..])
  }

  lemma {:induction false} SqueezeConcat(a: string, b: string)
    ensures Squeeze(a + b) == Squeeze(a) + Squeeze(b)
  {
    if a == "" {
      assert a + b == b;
    } else {
      SqueezeConcat(a[1..], b);
      assert (a + b)[1..] == a[1..] + b;
    }
  }

  lemma {:induction false} SqueezeGap(a: string)
    requires AllSpace(a)
    ensures Squeeze(a) == ""
  {
    if a != "" { SqueezeGap(a[1..]); }
  }

  lemma {:induction false} SqueezeDense(a: string)
    requires forall k :: 0 <= k < |a| ==> !IsSpace(a[k])
    ensures Squeeze(a) == a
  {
    if a != "" { SqueezeDense(a[1..]); }
  }

  lemma {:induction false} SqueezeSpell(toks: seq<Token>, gaps: seq<string>, pos: nat)
    requires |gaps| == |toks| + 1 && Spelling(toks, gaps, pos)
    ensures Squeeze(Spell(toks, gaps)) == Join(toks)
    decreases |toks|
  {
    SqueezeGap(gaps[0]);
    if toks != [] {
      var text, rest := TokenText(toks[0]), Spell(toks[1..], gaps[1..]);
      SqueezeSpell(toks[1..], gaps[1..], pos + |gaps[0]| + |text|);
      SqueezeDense(text);
      SqueezeConcat(text, rest);
      SqueezeConcat(gaps[0], text + rest);
    }
  }

  /** Reading loses nothing but spaces. */
  lemma LosesNothing(s: string)
    requires IsText(s)
    ensures Join(Lex(s, 0)) == Squeeze(s)
  {
    SpellLex(s, 0);
    SqueezeSpell(Lex(s, 0), Gaps(s, 0), 0);
    assert s[0..] == s;
  }

  // ---------------------------------------------------------------- printing

  function At(text: string, pos: nat): Lexeme {
    Lexeme(text, pos, pos + |text|)
  }

  function PrintWords(words: seq<string>, pos: nat): seq<Item> {
    if words == [] then [] else [Arg(At(words[0], pos))] + PrintWords(words[1..], pos + |words[0]| + 1)
  }

  /** A redirection after a simple command. */
  function AddRed(s: Simple, r: Item): Simple {
    match s case Items(items) => Items(items + [r]) case Block(line, reds) => Block(line, reds + [r])
  }

  /** A command without redirection signs of its own that can stand in a pipeline; anything else goes in parentheses. */
  function PrintSimple(t: Tree, pos: nat): Simple
    decreases t, 1
  {
    match t
    case TExec(words) => Items(PrintWords(words, pos))
    case TRedir(tree, file, out) =>
      var s := PrintSimple(tree, pos);
      AddRed(s, Red(if out then Great else Less, At(file, pos + Width(SimpleTokens(s)) + 2)))
    case _ => Block(PrintLine(t, pos + 2), [])
  }

  function PrintPipe(t: Tree, pos: nat): Pipeline
    decreases t, 2
  {
    if t.TPipe? then
      var s := PrintSimple(t.left, pos);
      More(s, PrintPipe(t.right, pos + Width(SimpleTokens(s)) + 2))
    else One(PrintSimple(t, pos))
  }

  /** A command under any number of `&`. */
  function PrintBack(t: Tree, pos: nat): (Pipeline, nat)
    decreases t, 3
  {
    if t.TBack? then
      var (p, n) := PrintBack(t.tree, pos);
      (p, n + 1)
    else (PrintPipe(t, pos), 0)
  }

  function PrintLine(t: Tree, pos: nat): Line
    decreases t, if t.TExec? || t.TRedir? then 4 else 0
  {
    match t
    case TList(l, r) =>
      var (p, n) := PrintBack(l, pos);
      Then(p, n, PrintLine(r, pos + Width(PipeTokens(p) + Amps(n)) + 2))
    case TBack(tree) =>
      var (p, n) := PrintBack(tree, pos);
      Last(p, n + 1)
    case TPipe(l, r) =>
      var s := PrintSimple(l, pos);
      Last(More(s, PrintPipe(r, pos + Width(SimpleTokens(s)) + 2)), 0)
    case _ => Last(One(PrintSimple(t, pos)), 0)
  }

  function Print(t: Tree): string {
    Render(LineTokens(PrintLine(t, 0)))
  }

  // ---------------------------------------------------------------- a printed command means itself

  ghost predicate SimpleGood(s: Simple, t: Tree, pos: nat) {
    SimpleOk(s) && Texts(SimpleCmd(s)) == t && Placed(SimpleTokens(s), pos)
  }

  ghost predicate PipeGood(p: Pipeline, t: Tree, pos: nat) {
    PipeOk(p) && Texts(PipeCmd(p)) == t && Placed(PipeTokens(p), pos)
  }

  ghost predicate BackGood(p: Pipeline, n: nat, t: Tree, pos: nat) {
    PipeOk(p) && Texts(Backs(PipeCmd(p), n)) == t && Placed(PipeTokens(p), pos)
  }

  ghost predicate LineGood(l: Line, t: Tree, pos: nat) {
    LineOk(l) && Texts(LineCmd(l)) == t && Placed(LineTokens(l), pos)
  }

  lemma {:induction false} PrintWordsGood(words: seq<string>, pos: nat)
    requires forall k :: 0 <= k < |words| ==> IsWord(words[k])
    ensures var items := PrintWords(words, pos);
            && ItemsOk(items) && RedsOf(items) == [] && |ArgsOf(items)| == |words|
            && (forall k :: 0 <= k < |words| ==> ArgsOf(items)[k].text == words[k])
            && Placed(ItemsTokens(items), pos)
    decreases |words|
  {
    if words != [] {
      var pos1 := pos + |words[0]| + 1;
      PrintWordsGood(words[1..], pos1);
      var first, rest := Arg(At(words[0], pos)), PrintWords(words[1..], pos1);
      ItemsFold(first, rest, []);
      Nothing(ItemsTokens(rest));
      Nothing(ItemsTokens([first] + rest));
      PlacedOne(Word(first.w), ItemsTokens(rest), pos);
    }
  }

  lemma PlacedOne(t: Token, rest: seq<Token>, pos: nat)
    requires TokenPlaced(t, pos) && Placed(rest, pos + |TokenText(t)| + 1)
    ensures Placed([t] + rest, pos)
  {
    assert ([t] + rest)[1..] == rest;
  }

  lemma {:induction false} ItemsAppend(items: seq<Item>, r: Item)
    ensures ItemsTokens(items + [r]) == ItemsTokens(items) + ItemTokens(r)
    ensures r.Red? ==> ArgsOf(items + [r]) == ArgsOf(items)
    ensures r.Red? ==> RedsOf(items + [r]) == RedsOf(items) + [Redirection(r.file, !r.sign.Less?)]
    decreases |items|
  {
    if items == [] {
      assert items + [r] == [r];
      Nothing(ItemTokens(r));
      assert ItemsTokens([r]) == ItemTokens(r) + ItemsTokens([]);
    } else {
      var first, rest := items[0], items[1..];
      ItemsAppend(rest, r);
      assert (items + [r])[0] == first && (items + [r])[1..] == rest + [r];
      hide ItemTokens;
      Assoc(ItemTokens(first), ItemsTokens(rest), ItemTokens(r));
    }
  }

  lemma WrapMore(cmd: Cmd, reds: seq<Redirection>, r: Redirection)
    ensures Wrap(cmd, reds + [r]) == Redir(Wrap(cmd, reds), r.file, r.out)
  {
    assert (reds + [r])[..|reds|] == reds;
  }

  lemma AddRedMeans(s: Simple, r: Item)
    requires SimpleOk(s) && r.Red? && IsRedir(r.sign)
    ensures SimpleOk(AddRed(s, r)) && SimpleCmd(AddRed(s, r)) == Redir(SimpleCmd(s), r.file, !r.sign.Less?)
    ensures SimpleTokens(AddRed(s, r)) == SimpleTokens(s) + [r.sign, Word(r.file)]
  {
    hide Wrap;
    hide ItemsTokens;
    hide ArgsOf;
    hide RedsOf;
    match s
    case Items(items) =>
      ItemsAppend(items, r);
      WrapMore(Exec(ArgsOf(items)), RedsOf(items), Redirection(r.file, !r.sign.Less?));
    case Block(line, reds) =>
      ItemsAppend(reds, r);
      WrapMore(LineCmd(line), RedsOf(reds), Redirection(r.file, !r.sign.Less?));
      Assoc([Open] + LineTokens(line) + [Close], ItemsTokens(reds), ItemTokens(r));
  }

  lemma AddRedGood(s: Simple, t: Tree, file: string, out: bool, pos: nat)
    requires SimpleGood(s, t, pos) && IsWord(file)
    ensures var r := Red(if out then Great else Less, At(file, pos + Width(SimpleTokens(s)) + 2));
            SimpleGood(AddRed(s, r), TRedir(t, file, out), pos)
  {
    hide SimpleTokens;
    hide SimpleCmd;
    hide SimpleOk;
    var w := pos + Width(SimpleTokens(s));
    var r := Red(if out then Great else Less, At(file, w + 2));
    AddRedMeans(s, r);
    PlacedOne(Word(r.file), [], w + 2);
    PlacedOne(r.sign, [Word(r.file)], w);
    assert [r.sign] + [Word(r.file)] == [r.sign, Word(r.file)];
    Nothing([Word(r.file)]);
    PlacedConcat(SimpleTokens(s), [r.sign, Word(r.file)], pos);
  }

  lemma BlockGood(line: Line, t: Tree, pos: nat)
    requires LineGood(line, t, pos + 2)
    ensures SimpleGood(Block(line, []), t, pos)
  {
    hide LineTokens;
    hide LineCmd;
    hide LineOk;
    var toks := LineTokens(line);
    ItemsNone([]);
    BlockTokens(line, [], []);
    Nothing(SimpleTokens(Block(line, [])));
    Nothing(ItemsTokens([]));
    Nothing([Close]);
    PlacedOne(Close, [], pos + 2 + Width(toks));
    PlacedConcat(toks, [Close], pos + 2);
    PlacedOne(Open, toks + [Close], pos);
  }

  lemma MoreGood(s: Simple, l: Tree, p: Pipeline, r: Tree, pos: nat)
    requires SimpleGood(s, l, pos) && PipeGood(p, r, pos + Width(SimpleTokens(s)) + 2)
    ensures PipeGood(More(s, p), TPipe(l, r), pos)
  {
    hide SimpleTokens;
    hide SimpleCmd;
    hide SimpleOk;
    var w := pos + Width(SimpleTokens(s));
    PlacedOne(Bar, PipeTokens(p), w);
    PlacedConcat(SimpleTokens(s), [Bar] + PipeTokens(p), pos);
    PipeUnfold(s, p, []);
    Nothing(PipeTokens(p));
    Nothing(PipeTokens(More(s, p)));
  }

  lemma {:induction false} AmpsPlaced(n: nat, pos: nat)
    ensures Placed(Amps(n), pos)
    decreases n
  {
    if n > 0 {
      AmpsPlaced(n - 1, pos + 2);
      assert Amps(n) == [Amp] + Amps(n - 1);
      PlacedOne(Amp, Amps(n - 1), pos);
    }
  }

  lemma {:induction false} BacksOut(c: Cmd, n: nat)
    ensures Backs(c, n + 1) == Back(Backs(c, n))
    decreases n
  {
    if n > 0 { BacksOut(Back(c), n - 1); }
  }

  lemma LastGood(p: Pipeline, n: nat, t: Tree, pos: nat)
    requires BackGood(p, n, t, pos)
    ensures LineGood(Last(p, n), t, pos)
  {
    AmpsPlaced(n, pos + Width(PipeTokens(p)));
    PlacedConcat(PipeTokens(p), Amps(n), pos);
  }

  lemma ThenGood(p: Pipeline, n: nat, l: Tree, rest: Line, r: Tree, pos: nat)
    requires BackGood(p, n, l, pos) && LineGood(rest, r, pos + Width(PipeTokens(p) + Amps(n)) + 2)
    ensures LineGood(Then(p, n, rest), TList(l, r), pos)
  {
    hide PipeTokens;
    hide PipeCmd;
    hide PipeOk;
    hide Amps;
    hide Backs;
    var front := PipeTokens(p) + Amps(n);
    AmpsPlaced(n, pos + Width(PipeTokens(p)));
    PlacedConcat(PipeTokens(p), Amps(n), pos);
    PlacedOne(Semi, LineTokens(rest), pos + Width(front));
    PlacedConcat(front, [Semi] + LineTokens(rest), pos);
    Assoc(front, [Semi], LineTokens(rest));
  }

  lemma {:induction false} PrintSimpleGood(t: Tree, pos: nat)
    requires TreeOk(t)
    ensures SimpleGood(PrintSimple(t, pos), t, pos)
    decreases t, 1
  {
    hide SimpleGood;
    hide LineGood;
    match t
    case TExec(words) => ExecGood(words, pos);
    case TRedir(tree, file, out) =>
      PrintSimpleGood(tree, pos);
      AddRedGood(PrintSimple(tree, pos), tree, file, out, pos);
    case _ =>
      PrintLineGood(t, pos + 2);
      BlockGood(PrintLine(t, pos + 2), t, pos);
  }

  lemma ExecGood(words: seq<string>, pos: nat)
    requires TreeOk(TExec(words))
    ensures SimpleGood(Items(PrintWords(words, pos)), TExec(words), pos)
  {
    PrintWordsGood(words, pos);
    hide ItemsTokens;
    var items := PrintWords(words, pos);
    assert Texts(Exec(ArgsOf(items))).words == words;
  }

  lemma {:induction false} PrintPipeGood(t: Tree, pos: nat)
    requires TreeOk(t)
    ensures PipeGood(PrintPipe(t, pos), t, pos)
    decreases t, 2
  {
    hide SimpleGood;
    if t.TPipe? {
      var s := PrintSimple(t.left, pos);
      PrintSimpleGood(t.left, pos);
      hide PipeGood;
      PrintPipeGood(t.right, pos + Width(SimpleTokens(s)) + 2);
      MoreGood(s, t.left, PrintPipe(t.right, pos + Width(SimpleTokens(s)) + 2), t.right, pos);
    } else {
      PrintSimpleGood(t, pos);
      OneGood(PrintSimple(t, pos), t, pos);
    }
  }

  lemma OneGood(s: Simple, t: Tree, pos: nat)
    requires SimpleGood(s, t, pos)
    ensures PipeGood(One(s), t, pos)
  {
  }

  lemma {:induction false} PrintBackGood(t: Tree, pos: nat)
    requires TreeOk(t)
    ensures var (p, n) := PrintBack(t, pos); BackGood(p, n, t, pos)
    decreases t, 3
  {
    if t.TBack? {
      PrintBackGood(t.tree, pos);
      var (p, n) := PrintBack(t.tree, pos);
      BacksOut(PipeCmd(p), n);
    } else {
      PrintPipeGood(t, pos);
    }
  }

  lemma {:induction false} PrintLineGood(t: Tree, pos: nat)
    requires TreeOk(t)
    ensures LineGood(PrintLine(t, pos), t, pos)
    decreases t, if t.TExec? || t.TRedir? then 4 else 0
  {
    hide LineGood;
    hide SimpleGood;
    match t
    case TList(l, r) =>
      PrintBackGood(l, pos);
      var (p, n) := PrintBack(l, pos);
      PrintLineGood(r, pos + Width(PipeTokens(p) + Amps(n)) + 2);
      ThenGood(p, n, l, PrintLine(r, pos + Width(PipeTokens(p) + Amps(n)) + 2), r, pos);
    case TBack(tree) =>
      PrintBackGood(tree, pos);
      var (p, n) := PrintBack(tree, pos);
      BacksOut(PipeCmd(p), n);
      LastGood(p, n + 1, t, pos);
    case TPipe(l, r) =>
      var s := PrintSimple(l, pos);
      PrintSimpleGood(l, pos);
      PrintPipeGood(r, pos + Width(SimpleTokens(s)) + 2);
      MoreGood(s, l, PrintPipe(r, pos + Width(SimpleTokens(s)) + 2), r, pos);
      LastGood(More(s, PrintPipe(r, pos + Width(SimpleTokens(s)) + 2)), 0, t, pos);
    case _ =>
      PrintSimpleGood(t, pos);
      OneGood(PrintSimple(t, pos), t, pos);
      LastGood(One(PrintSimple(t, pos)), 0, t, pos);
  }

  /** Parsing the printing of a command gives the command. */
  lemma RoundTrip(t: Tree)
    requires TreeOk(t)
    ensures ParseText(Print(t)).Ok? && Texts(ParseText(Print(t)).cmd) == t
  {
    var l := PrintLine(t, 0);
    PrintLineGood(t, 0);
    LexRender(Print(t), 0, LineTokens(l));
    Complete(l);
  }

  // ---------------------------------------------------------------- what is accepted can be printed

  /** No command has more than nine words. */
  ghost predicate Bounded(c: Cmd) {
    match c
    case Exec(args) => |args| < MAX_ARGS
    case Redir(cmd, _, _) => Bounded(cmd)
    case Pipe(l, r) => Bounded(l) && Bounded(r)
    case List(l, r) => Bounded(l) && Bounded(r)
    case Back(cmd) => Bounded(cmd)
  }

  lemma {:induction false} WrapBounded(c: Cmd, reds: seq<Redirection>)
    requires Bounded(c)
    ensures Bounded(Wrap(c, reds))
    decreases |reds|
  {
    if reds != [] { WrapBounded(c, reds[..|reds| - 1]); }
  }

  lemma {:induction false} SimpleBounded(s: Simple)
    requires SimpleOk(s)
    ensures Bounded(SimpleCmd(s))
    decreases s
  {
    hide Wrap;
    match s
    case Items(items) => WrapBounded(Exec(ArgsOf(items)), RedsOf(items));
    case Block(line, reds) =>
      LineBounded(line);
      WrapBounded(LineCmd(line), RedsOf(reds));
  }

  lemma {:induction false} PipeBounded(p: Pipeline)
    requires PipeOk(p)
    ensures Bounded(PipeCmd(p))
    decreases p
  {
    SimpleBounded(p.simple);
    if p.More? { PipeBounded(p.rest); }
  }

  lemma {:induction false} BacksBounded(c: Cmd, n: nat)
    requires Bounded(c)
    ensures Bounded(Backs(c, n))
    decreases n
  {
    if n > 0 { BacksBounded(Back(c), n - 1); }
  }

  lemma {:induction false} LineBounded(l: Line)
    requires LineOk(l)
    ensures Bounded(LineCmd(l))
    decreases l
  {
    PipeBounded(l.pipe);
    BacksBounded(PipeCmd(l.pipe), l.amps);
    if l.Then? { LineBounded(l.rest); }
  }

  lemma LexemeWord(s: string, w: Lexeme)
    requires LexemeOk(s, w)
    ensures IsWord(w.text)
  {
    forall k | 0 <= k < |w.text| ensures WordChar(w.text[k]) {
      assert w.text[k] == s[w.start + k];
    }
  }

  lemma {:induction false} TextsOk(s: string, c: Cmd)
    requires Bounded(c) && forall w :: w in CmdWords(c) ==> LexemeOk(s, w)
    ensures TreeOk(Texts(c))
    decreases c
  {
    match c
    case Exec(args) =>
      forall k | 0 <= k < |args| ensures IsWord(args[k].text) {
        assert args[k] in CmdWords(c);
        LexemeWord(s, args[k]);
      }
    case Redir(cmd, file, _) =>
      TextsOk(s, cmd);
      assert file in CmdWords(c);
      LexemeWord(s, file);
    case Pipe(l, r) => TextsOk(s, l); TextsOk(s, r);
    case List(l, r) => TextsOk(s, l); TextsOk(s, r);
    case Back(cmd) => TextsOk(s, cmd);
  }

  /** Whatever line is accepted, the canonical printing of its command is accepted too, and gives the same command. */
  lemma Normalise(s: string)
    requires ParseText(s).Ok?
    ensures var t := Texts(ParseText(s).cmd);
            TreeOk(t) && ParseText(Print(t)).Ok? && Texts(ParseText(Print(t)).cmd) == t
  {
    hide ParseLine;
    hide LineCmd;
    hide LineTokens;
    hide LineOk;
    hide Print;
    var l := LineSound(Lex(s, 0));
    LineBounded(l);
    hide Lex;
    forall w | w in CmdWords(ParseText(s).cmd) ensures LexemeOk(s, w) { ParsedWords(s, w); }
    TextsOk(s, ParseText(s).cmd);
    RoundTrip(Texts(ParseText(s).cmd));
  }
}
