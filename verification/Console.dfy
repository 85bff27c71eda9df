/**
 Console input: a ring of 128 bytes that the keyboard edits and readers drain, against a
 list-based line editor.
 */
module Console {
  import opened Basics
  import opened Counters

  const SIZE: nat := 128

  const NEWLINE: Byte := 10
  const RETURN: Byte := 13
  const EOT: Byte := 4            // ^D
  const BACKSPACE: Byte := 8      // ^H
  const DELETE: Byte := 0x7f
  const LIST: Byte := 16          // ^P
  const KILL_LINE: Byte := 21     // ^U

  // ---------------------------------------------------------------- the list editor

  /** Bytes ready for readers, and the line being typed. */
  datatype Editor = Editor(committed: seq<Byte>, line: seq<Byte>)

  predicate Ends(b: Byte) {
    b == NEWLINE || b == EOT
  }

  ghost predicate EditorOk(ed: Editor) {
    && |ed.committed| + |ed.line| <= SIZE
    && (|ed.committed| + |ed.line| == SIZE ==> ed.line == [])
    && forall k :: 0 <= k < |ed.line| ==> !Ends(ed.line[k])
  }

  ghost function Typed(ed: Editor, c: Byte): Editor {
    var line := ed.line + [if c == RETURN then NEWLINE else c];
    if Ends(line[|line| - 1]) || |ed.committed| + |line| == SIZE then Editor(ed.committed + line, [])
    else ed.(line := line)
  }

  /** One key. */
  ghost function Key(ed: Editor, c: Byte): Editor {
    if c == LIST then ed
    else if c == KILL_LINE then ed.(line := [])
    else if c == BACKSPACE || c == DELETE then
      if ed.line == [] then ed else ed.(line := ed.line[..|ed.line| - 1])
    else if c != 0 && |ed.committed| + |ed.line| < SIZE then Typed(ed, c)
    else ed
  }

  ghost function Keys(ed: Editor, keys: seq<Byte>): Editor
    decreases |keys|
  {
    if keys == [] then ed else Key(Keys(ed, keys[..|keys| - 1]), keys[|keys| - 1])
  }

  lemma KeyKeeps(ed: Editor, c: Byte)
    requires EditorOk(ed)
    ensures EditorOk(Key(ed, c)) && ed.committed <= Key(ed, c).committed
  {
  }

  // ---------------------------------------------------------------- laws of editing

  /** A key that stands for itself within a line. */
  predicate Ordinary(c: Byte) {
    c != 0 && c != LIST && c != KILL_LINE && c != BACKSPACE && c != DELETE && c != RETURN && !Ends(c)
  }

  predicate Eraser(c: Byte) {
    c == BACKSPACE || c == DELETE
  }

  /** A key that ends a line, and the byte that it leaves. */
  predicate Finisher(c: Byte) {
    c == RETURN || c == NEWLINE || c == EOT
  }

  function EndOf(c: Byte): Byte {
    if c == EOT then EOT else NEWLINE
  }

  ghost predicate Text(s: seq<Byte>) {
    forall k :: 0 <= k < |s| ==> Ordinary(s[k])
  }

  lemma {:induction false} KeysConcat(ed: Editor, a: seq<Byte>, b: seq<Byte>)
    ensures Keys(ed, a + b) == Keys(Keys(ed, a), b)
    decreases |b|
  {
    if b == [] {
      assert a + b == a;
    } else {
      var n := |b| - 1;
      KeysConcat(ed, a, b[..n]);
      assert (a + b)[..|a + b| - 1] == a + b[..n];
    }
  }

  lemma KeysOne(ed: Editor, c: Byte)
    ensures Keys(ed, [c]) == Key(ed, c)
  {
    assert [c][..0] == [];
  }

  lemma KeysTwo(ed: Editor, c: Byte, d: Byte)
    ensures Keys(ed, [c, d]) == Key(Key(ed, c), d)
  {
    hide Key;
    KeysOne(ed, c);
    KeysConcat(ed, [c], [d]);
    KeysOne(Key(ed, c), d);
    assert [c, d] == [c] + [d];
  }

  lemma {:induction false} KeysKeep(ed: Editor, keys: seq<Byte>)
    requires EditorOk(ed)
    ensures EditorOk(Keys(ed, keys)) && ed.committed <= Keys(ed, keys).committed
    decreases |keys|
  {
    if keys != [] {
      KeysKeep(ed, keys[..|keys| - 1]);
      KeyKeeps(Keys(ed, keys[..|keys| - 1]), keys[|keys| - 1]);
    }
  }

  /** An eraser undoes the character typed before it, except exactly the one that fills the buffer. */
  lemma EraseUndoes(ed: Editor, c: Byte, e: Byte)
    requires EditorOk(ed) && Ordinary(c) && Eraser(e)
    ensures Keys(ed, [c, e]) == ed <==> |ed.committed| + |ed.line| + 1 != SIZE
  {
    KeysTwo(ed, c, e);
    hide Keys;
    var line := ed.line + [c];
    assert line[..|line| - 1] == ed.line;
  }

  /** An eraser on an empty line does nothing, and so do the process listing and the key 0. */
  lemma NothingTyped(ed: Editor, c: Byte)
    requires c == LIST || c == 0 || (Eraser(c) && ed.line == [])
    ensures Keys(ed, [c]) == ed
  {
    KeysOne(ed, c);
  }

  /** A full buffer takes no more; the character that fills it hands the line over. */
  lemma FullOrFilled(ed: Editor, c: Byte)
    requires EditorOk(ed) && (Ordinary(c) || Finisher(c))
    ensures |ed.committed| + |ed.line| == SIZE ==> Keys(ed, [c]) == ed
    ensures Ordinary(c) && |ed.committed| + |ed.line| + 1 == SIZE ==>
              Keys(ed, [c]) == Editor(ed.committed + ed.line + [c], [])
  {
    KeysOne(ed, c);
    assert ed.committed + (ed.line + [c]) == ed.committed + ed.line + [c];
  }

  /** Characters that fit go into the line, in order. */
  lemma {:induction false} TypeText(ed: Editor, text: seq<Byte>)
    requires Text(text) && |ed.committed| + |ed.line| + |text| < SIZE
    ensures Keys(ed, text) == ed.(line := ed.line + text)
    decreases |text|
  {
    if text == [] {
      assert ed.line + text == ed.line;
    } else {
      var n := |text| - 1;
      TypeText(ed, text[..n]);
      assert ed.line + text[..n] + [text[n]] == ed.line + text;
    }
  }

  /** The key that kills a line leaves what was handed over before, and an empty line. */
  lemma KillsText(ed: Editor, text: seq<Byte>)
    requires Text(text) && |ed.committed| + |ed.line| + |text| < SIZE
    ensures Keys(ed, text + [KILL_LINE]) == Editor(ed.committed, [])
  {
    TypeText(ed, text);
    KeysConcat(ed, text, [KILL_LINE]);
    KeysOne(Keys(ed, text), KILL_LINE);
  }

  /** A key that ends a line hands over exactly what was typed, and the end. */
  lemma EndsText(ed: Editor, text: seq<Byte>, c: Byte)
    requires Text(text) && |ed.committed| + |ed.line| + |text| < SIZE && Finisher(c)
    ensures Keys(ed, text + [c]) == Editor(ed.committed + ed.line + text + [EndOf(c)], [])
  {
    hide Key;
    TypeText(ed, text);
    KeysConcat(ed, text, [c]);
    KeysOne(Keys(ed, text), c);
    hide Keys;
    EndsLine(ed.(line := ed.line + text), c);
    assert ed.committed + (ed.line + text) + [EndOf(c)] == ed.committed + ed.line + text + [EndOf(c)];
  }

  lemma EndsLine(ed: Editor, c: Byte)
    requires |ed.committed| + |ed.line| < SIZE && Finisher(c)
    ensures Key(ed, c) == Editor(ed.committed + ed.line + [EndOf(c)], [])
  {
    assert ed.committed + (ed.line + [EndOf(c)]) == ed.committed + ed.line + [EndOf(c)];
  }

  /** Anywhere in a stream of keys, a character and its eraser cancel, unless the character fills the buffer. */
  lemma PairCancels(ed: Editor, a: seq<Byte>, c: Byte, e: Byte, b: seq<Byte>)
    requires EditorOk(ed) && Ordinary(c) && Eraser(e)
    requires var mid := Keys(ed, a); |mid.committed| + |mid.line| + 1 != SIZE
    ensures Keys(ed, a + [c, e] + b) == Keys(ed, a + b)
  {
    KeysKeep(ed, a);
    EraseUndoes(Keys(ed, a), c, e);
    KeysConcat(ed, a, [c, e]);
    KeysConcat(ed, a + [c, e], b);
    KeysConcat(ed, a, b);
  }

  /** A key as the line sees it: a letter, a byte that hands the line over, an eraser, a line kill, or nothing. */
  datatype Stroke = Letter(b: Byte) | Seal(b: Byte) | Erase | Wipe | Idle

  ghost function StrokeOf(c: Byte, room: nat): Stroke {
    if Eraser(c) then Erase
    else if c == KILL_LINE then Wipe
    else if c == LIST || c == 0 || room == 0 then Idle
    else if Finisher(c) then Seal(EndOf(c))
    else if room == 1 then Seal(c)
    else Letter(c)
  }

  ghost function Room(ed: Editor): nat
    requires EditorOk(ed)
  {
    SIZE - |ed.committed| - |ed.line|
  }

  /**
   What is left of a stream of strokes, read from its end: `n` letters are still to be erased.  An eraser takes one
   more, a line kill all there are, and the end of the line before stops both.
   */
  ghost function Survivors(strokes: seq<Stroke>, n: nat): seq<Byte>
    decreases |strokes|
  {
    if strokes == [] then []
    else
      var before := strokes[..|strokes| - 1];
      match strokes[|strokes| - 1]
      case Erase => Survivors(before, n + 1)
      case Wipe => Survivors(before, |before|)
      case Idle => Survivors(before, n)
      case Seal(b) => Survivors(before, 0) + [b]
      case Letter(b) => if n > 0 then Survivors(before, n - 1) else Survivors(before, 0) + [b]
  }

  /** The strokes up to the last one that handed a line over. */
  ghost function Sealed(strokes: seq<Stroke>): seq<Stroke> {
    if strokes == [] || strokes[|strokes| - 1].Seal? then strokes else Sealed(strokes[..|strokes| - 1])
  }

  /** `line` without its last `n` bytes, as far as there are so many. */
  function Without(line: seq<Byte>, n: nat): seq<Byte> {
    if n >= |line| then [] else line[..|line| - n]
  }

  /** `entered` and `line` are what is left of `strokes`, whatever is erased next. */
  ghost predicate Tells(entered: seq<Byte>, line: seq<Byte>, strokes: seq<Stroke>) {
    && |line| <= |strokes| && entered == Survivors(Sealed(strokes), 0)
    && forall n: nat :: Survivors(strokes, n) == entered + Without(line, n)
  }

  /** The bytes that a key hands over. */
  ghost function HandedOver(ed: Editor, c: Byte): seq<Byte>
    requires EditorOk(ed)
  {
    KeyKeeps(ed, c);
    Key(ed, c).committed[|ed.committed|..]
  }

  lemma SealTells(entered: seq<Byte>, line: seq<Byte>, strokes: seq<Stroke>, b: Byte)
    requires Tells(entered, line, strokes)
    ensures Tells(entered + (line + [b]), [], strokes + [Seal(b)])
  {
    var more := strokes + [Seal(b)];
    assert more[..|more| - 1] == strokes && Without(line, 0) == line;
    assert Survivors(strokes, 0) == entered + line;
    forall n: nat ensures Survivors(more, n) == entered + (line + [b]) + Without([], n) { }
  }

  lemma LetterTells(entered: seq<Byte>, line: seq<Byte>, strokes: seq<Stroke>, b: Byte)
    requires Tells(entered, line, strokes)
    ensures Tells(entered, line + [b], strokes + [Letter(b)])
  {
    var more := strokes + [Letter(b)];
    assert more[..|more| - 1] == strokes && Without(line, 0) == line;
    assert Survivors(strokes, 0) == entered + line;
    forall n: nat ensures Survivors(more, n) == entered + Without(line + [b], n) {
      if n > 0 { assert Without(line + [b], n) == Without(line, n - 1); }
    }
  }

  lemma EraserTells(entered: seq<Byte>, line: seq<Byte>, strokes: seq<Stroke>, k: Stroke)
    requires Tells(entered, line, strokes) && (k.Erase? || k.Wipe? || k.Idle?)
    ensures Tells(entered, if k.Idle? then line else Without(line, if k.Erase? then 1 else |line|), strokes + [k])
  {
    var more := strokes + [k];
    assert more[..|more| - 1] == strokes;
    var line' := if k.Idle? then line else Without(line, if k.Erase? then 1 else |line|);
    forall n: nat ensures Survivors(more, n) == entered + Without(line', n) {
      if k.Erase? { assert Without(line', n) == Without(line, n + 1); }
      if k.Wipe? { assert Without(line', n) == Without(line, |strokes|); }
    }
  }

  /** One more key, with whatever room there is. */
  lemma KeyTells(ed: Editor, c: Byte, entered: seq<Byte>, strokes: seq<Stroke>)
    requires EditorOk(ed) && Tells(entered, ed.line, strokes)
    ensures Tells(entered + HandedOver(ed, c), Key(ed, c).line, strokes + [StrokeOf(c, Room(ed))])
  {
    hide Tells;
    var k := StrokeOf(c, Room(ed));
    if k.Seal? {
      SealTells(entered, ed.line, strokes, k.b);
      assert HandedOver(ed, c) == ed.line + [k.b];
    } else {
      assert entered + HandedOver(ed, c) == entered;
      if k.Letter? { LetterTells(entered, ed.line, strokes, k.b); } else { EraserTells(entered, ed.line, strokes, k); }
    }
  }

  lemma KeyAdds(ed: Editor, c: Byte)
    ensures |Key(ed, c).committed| + |Key(ed, c).line| <= |ed.committed| + |ed.line| + 1
  {
  }

  lemma TellsAll(entered: seq<Byte>, line: seq<Byte>, strokes: seq<Stroke>)
    requires Tells(entered, line, strokes)
    ensures entered == Survivors(Sealed(strokes), 0) && entered + line == Survivors(strokes, 0)
  {
    assert Without(line, 0) == line;
    assert Survivors(strokes, 0) == entered + Without(line, 0);
  }

  /** The strokes of keys that find room. */
  ghost function Plainly(keys: seq<Byte>): seq<Stroke> {
    seq(|keys|, k requires 0 <= k < |keys| => StrokeOf(keys[k], SIZE))
  }

  lemma PlainlyAdds(keys: seq<Byte>, c: Byte, ed: Editor)
    requires EditorOk(ed) && Room(ed) > 1
    ensures Plainly(keys + [c]) == Plainly(keys) + [StrokeOf(c, Room(ed))]
  {
  }

  lemma RestJoins(a: seq<Byte>, ab: seq<Byte>, abc: seq<Byte>)
    requires a <= ab <= abc
    ensures a <= abc && abc[|a|..] == ab[|a|..] + abc[|ab|..]
  {
  }

  lemma {:induction false} KeysTell(ed: Editor, keys: seq<Byte>)
    requires EditorOk(ed) && ed.line == [] && |ed.committed| + |keys| < SIZE
    ensures var ed' := Keys(ed, keys);
            && EditorOk(ed') && ed.committed <= ed'.committed
            && |ed'.committed| + |ed'.line| <= |ed.committed| + |keys|
            && Tells(ed'.committed[|ed.committed|..], ed'.line, Plainly(keys))
    decreases |keys|
  {
    if keys == [] {
      assert Plainly(keys) == [] && ed.committed[|ed.committed|..] == [];
    } else {
      hide Tells;
      hide Key;
      hide EditorOk;
      hide StrokeOf;
      hide Plainly;
      var c, before := keys[|keys| - 1], keys[..|keys| - 1];
      KeysTell(ed, before);
      var mid := Keys(ed, before);
      KeyKeeps(mid, c);
      KeyAdds(mid, c);
      PlainlyAdds(before, c, mid);
      assert keys == before + [c];
      KeyTells(mid, c, mid.committed[|ed.committed|..], Plainly(before));
      RestJoins(ed.committed, mid.committed, Key(mid, c).committed);
    }
  }

  /**
   A stream of keys that fits: what is handed over and what is being typed are the stream with every erased character
   and its eraser cancelled, cut after the last end of a line.
   */
  lemma StreamEdits(ed: Editor, keys: seq<Byte>)
    requires EditorOk(ed) && ed.line == [] && |ed.committed| + |keys| < SIZE
    ensures var ed', strokes := Keys(ed, keys), Plainly(keys);
            && ed'.committed == ed.committed + Survivors(Sealed(strokes), 0)
            && ed'.committed + ed'.line == ed.committed + Survivors(strokes, 0)
  {
    hide *;
    KeysTell(ed, keys);
    var ed' := Keys(ed, keys);
    TellsAll(ed'.committed[|ed.committed|..], ed'.line, Plainly(keys));
    PartsJoin(ed.committed, ed'.committed, ed'.line);
  }

  lemma PartsJoin(a: seq<Byte>, ab: seq<Byte>, c: seq<Byte>)
    requires a <= ab
    ensures ab == a + ab[|a|..] && ab + c == a + (ab[|a|..] + c)
  {
  }

  // ---------------------------------------------------------------- readers

  /** What a call of `consoleRead` gives: up to `n` bytes, end of file, or -1 with the bytes it had already taken. */
  datatype Reply = Data(n: nat, bytes: seq<Byte>) | Eof | Interrupted(bytes: seq<Byte>)

  datatype Reader = NotReading | InRead(n: nat, got: seq<Byte>)

  /** `entered` is everything ever committed, `log` the bytes taken and by whom. */
  datatype State = State(ed: Editor, readers: map<nat, Reader>, killed: set<nat>, replies: map<nat, seq<Reply>>,
    entered: seq<Byte>, log: seq<(nat, Byte)>)

  datatype Event = Press(c: Byte) | Start(p: nat, n: nat) | Take(p: nat) | Quit(p: nat) | Kill(p: nat)

  ghost predicate Known(s: State, p: nat) {
    p in s.readers && p in s.replies
  }

  /** A reader waits while nothing is committed; a killed one gives up then. */
  ghost predicate Enabled(s: State, e: Event) {
    match e
    case Press(_) => true
    case Start(p, _) => Known(s, p) && s.readers[p].NotReading?
    case Take(p) => Known(s, p) && s.readers[p].InRead? && s.ed.committed != []
    case Quit(p) => Known(s, p) && s.readers[p].InRead? && s.ed.committed == [] && p in s.killed
    case Kill(_) => true
  }

  ghost function Answer(s: State, p: nat, r: Reply): State
    requires Known(s, p)
  {
    s.(readers := s.readers[p := NotReading], replies := s.replies[p := s.replies[p] + [r]])
  }

  /** The first committed byte goes to reader `p`. */
  ghost function Consume(s: State, p: nat): State
    requires s.ed.committed != []
  {
    s.(ed := s.ed.(committed := s.ed.committed[1..]), log := s.log + [(p, s.ed.committed[0])])
  }

  /** One round of the loop in `consoleRead`. */
  ghost function TakeNext(s: State, p: nat): State
    requires Enabled(s, Take(p))
  {
    var c, n, got := s.ed.committed[0], s.readers[p].n, s.readers[p].got;
    if c == EOT && got != [] then Answer(s, p, Data(n, got))
    else if c == EOT then Answer(Consume(s, p), p, Eof)
    else if c == NEWLINE || |got| + 1 == n then Answer(Consume(s, p), p, Data(n, got + [c]))
    else Consume(s, p).(readers := s.readers[p := InRead(n, got + [c])])
  }

  ghost function Next(s: State, e: Event): State
    requires Enabled(s, e)
  {
    match e
    case Press(c) => s.(ed := Key(s.ed, c), entered := s.entered + Key(s.ed, c).committed[|s.ed.committed|..])
    case Start(p, n) => if n == 0 then Answer(s, p, Data(0, [])) else s.(readers := s.readers[p := InRead(n, [])])
    case Take(p) => TakeNext(s, p)
    case Quit(p) => Answer(s, p, Interrupted(s.readers[p].got))
    case Kill(p) => s.(killed := s.killed + {p})
  }

  // ---------------------------------------------------------------- what every run keeps

  ghost function Untagged(log: seq<(nat, Byte)>): seq<Byte> {
    seq(|log|, k requires 0 <= k < |log| => log[k].1)
  }

  /** The bytes that reader `p` took, in order. */
  ghost function By(log: seq<(nat, Byte)>, p: nat): seq<Byte> {
    if log == [] then []
    else By(log[..|log| - 1], p) + if log[|log| - 1].0 == p then [log[|log| - 1].1] else []
  }

  /** What a reply used up; an end of file uses up its ^D. */
  ghost function UsedUp(r: Reply): seq<Byte> {
    if r.Eof? then [EOT] else r.bytes
  }

  ghost function Flat(replies: seq<Reply>): seq<Byte> {
    if replies == [] then [] else Flat(replies[..|replies| - 1]) + UsedUp(replies[|replies| - 1])
  }

  ghost function Got(r: Reader): seq<Byte> {
    if r.InRead? then r.got else []
  }

  /** Neither a newline nor ^D. */
  ghost predicate Plain(bytes: seq<Byte>) {
    forall k :: 0 <= k < |bytes| ==> !Ends(bytes[k])
  }

  /**
   A read of `n` bytes gives at most `n`, and at least one if any was asked for, with a newline only at the end and
   never a ^D.
   */
  ghost predicate ReplyOk(r: Reply) {
    match r
    case Data(n, bytes) =>
      if n == 0 then bytes == []
      else 0 < |bytes| <= n && Plain(bytes[..|bytes| - 1]) && bytes[|bytes| - 1] != EOT
    case Eof => true
    case Interrupted(bytes) => Plain(bytes)
  }

  ghost predicate ReaderOk(s: State, p: nat)
    requires Known(s, p)
  {
    && By(s.log, p) == Flat(s.replies[p]) + Got(s.readers[p])
    && (forall k :: 0 <= k < |s.replies[p]| ==> ReplyOk(s.replies[p][k]))
    && (s.readers[p].InRead? ==> |s.readers[p].got| < s.readers[p].n && Plain(s.readers[p].got))
  }

  ghost predicate Inv(s: State) {
    && EditorOk(s.ed) && s.readers.Keys == s.replies.Keys
    && s.entered == Untagged(s.log) + s.ed.committed
    && forall p :: Known(s, p) ==> ReaderOk(s, p)
  }

  lemma ByAdd(log: seq<(nat, Byte)>, q: nat, b: Byte, p: nat)
    ensures By(log + [(q, b)], p) == By(log, p) + if q == p then [b] else []
  {
    assert (log + [(q, b)])[..|log|] == log;
  }

  lemma FlatAdd(replies: seq<Reply>, r: Reply)
    ensures Flat(replies + [r]) == Flat(replies) + UsedUp(r)
  {
    assert (replies + [r])[..|replies|] == replies;
  }

  /** Another reader's byte, or none, leaves a reader where it was. */
  lemma OthersKept(s: State, s': State, p: nat, q: nat)
    requires Inv(s) && Known(s, q) && p != q && Known(s', q) && s'.readers[q] == s.readers[q] &&
               s'.replies[q] == s.replies[q]
    requires s'.log == s.log || (s.ed.committed != [] && s'.log == s.log + [(p, s.ed.committed[0])])
    ensures ReaderOk(s', q)
  {
    assert ReaderOk(s, q);
    if s'.log != s.log { ByAdd(s.log, p, s.ed.committed[0], q); }
  }

  /** The reader itself: with or without a byte, it goes on or answers. */
  lemma AnswerOk(s: State, s1: State, p: nat, r: Reply)
    requires Known(s, p) && ReaderOk(s, p) && s.readers[p].InRead? && ReplyOk(r)
    requires s1.readers == s.readers && s1.replies == s.replies
    requires By(s1.log, p) == Flat(s.replies[p]) + UsedUp(r)
    ensures ReaderOk(Answer(s1, p, r), p)
  {
    FlatAdd(s.replies[p], r);
  }

  lemma TakeReader(s: State, p: nat)
    requires Inv(s) && Enabled(s, Take(p))
    ensures ReaderOk(TakeNext(s, p), p)
  {
    assert ReaderOk(s, p);
    hide Inv;
    var c, n, got := s.ed.committed[0], s.readers[p].n, s.readers[p].got;
    ByAdd(s.log, p, c, p);
    var base := Flat(s.replies[p]);
    assert base + got + [c] == base + (got + [c]);
    if c == EOT && got != [] {
      AnswerOk(s, s, p, Data(n, got));
    } else if c == EOT {
      AnswerOk(s, Consume(s, p), p, Eof);
    } else if c == NEWLINE || |got| + 1 == n {
      assert (got + [c])[..|got|] == got;
      AnswerOk(s, Consume(s, p), p, Data(n, got + [c]));
    }
  }

  lemma ConsumeBytes(s: State, p: nat)
    requires EditorOk(s.ed) && s.ed.committed != [] && s.entered == Untagged(s.log) + s.ed.committed
    ensures var s' := Consume(s, p); EditorOk(s'.ed) && s'.entered == Untagged(s'.log) + s'.ed.committed
  {
  }

  lemma TakeKeeps(s: State, p: nat)
    requires Inv(s) && Enabled(s, Take(p))
    ensures Inv(TakeNext(s, p))
  {
    hide ReaderOk;
    hide EditorOk;
    hide Untagged;
    TakeReader(s, p);
    ConsumeBytes(s, p);
    var s' := TakeNext(s, p);
    forall q | Known(s', q) ensures ReaderOk(s', q) {
      if q != p { OthersKept(s, s', p, q); }
    }
  }

  lemma QuitKeeps(s: State, p: nat)
    requires Inv(s) && Enabled(s, Quit(p))
    ensures Inv(Next(s, Quit(p)))
  {
    assert ReaderOk(s, p);
    AnswerOk(s, s, p, Interrupted(s.readers[p].got));
    hide ReaderOk;
    var s' := Next(s, Quit(p));
    forall q | Known(s', q) ensures ReaderOk(s', q) {
      if q != p { OthersKept(s, s', p, q); }
    }
  }

  lemma PressKeeps(s: State, c: Byte)
    requires Inv(s)
    ensures Inv(Next(s, Press(c)))
  {
    KeyKeeps(s.ed, c);
    hide EditorOk;
    hide Key;
    var s' := Next(s, Press(c));
    forall q | Known(s', q) ensures ReaderOk(s', q) { assert ReaderOk(s, q); }
  }

  lemma StartKeeps(s: State, p: nat, n: nat)
    requires Inv(s) && Enabled(s, Start(p, n))
    ensures Inv(Next(s, Start(p, n)))
  {
    var s' := Next(s, Start(p, n));
    FlatAdd(s.replies[p], Data(0, []));
    forall q | Known(s', q) ensures ReaderOk(s', q) { assert ReaderOk(s, q); }
  }

  lemma StepKeeps(s: State, e: Event)
    requires Inv(s) && Enabled(s, e)
    ensures Inv(Next(s, e))
  {
    match e
    case Press(c) => PressKeeps(s, c);
    case Take(p) => TakeKeeps(s, p);
    case Quit(p) => QuitKeeps(s, p);
    case Start(p, n) => StartKeeps(s, p, n);
    case Kill(_) =>
      var s' := Next(s, e);
      forall q | Known(s', q) ensures ReaderOk(s', q) { assert ReaderOk(s, q); }
  }

  ghost predicate Initial(s: State) {
    && s.ed == Editor([], []) && s.entered == [] && s.log == [] && s.readers.Keys == s.replies.Keys
    && forall p :: Known(s, p) ==> s.readers[p].NotReading? && s.replies[p] == []
  }

  ghost predicate IsRun(run: seq<State>, events: seq<Event>) {
    && |run| == |events| + 1 && Initial(run[0])
    && forall k :: 0 <= k < |events| ==> Enabled(run[k], events[k]) && run[k + 1] == Next(run[k], events[k])
  }

  lemma {:induction false} RunInv(run: seq<State>, events: seq<Event>, k: nat)
    requires IsRun(run, events) && k < |run|
    ensures Inv(run[k])
  {
    if k > 0 {
      RunInv(run, events, k - 1);
      StepKeeps(run[k - 1], events[k - 1]);
    }
  }

  /**
   Over every stream of keys and schedule of reads: the bytes taken are those committed, in order; what
   each reader took is what its calls gave it, a ^D standing for an end of file; and each call kept to
   its line and its limit.
   */
  lemma Delivered(run: seq<State>, events: seq<Event>, k: nat)
    requires IsRun(run, events) && k < |run|
    ensures var s := run[k];
            && s.entered == Untagged(s.log) + s.ed.committed
            && (forall p :: Known(s, p) ==> By(s.log, p) == Flat(s.replies[p]) + Got(s.readers[p]))
            && (forall p, j :: Known(s, p) && 0 <= j < |s.replies[p]| ==> ReplyOk(s.replies[p][j]))
            && EditorOk(s.ed)
  {
    RunInv(run, events, k);
    var s := run[k];
    forall p | Known(s, p) ensures ReaderOk(s, p) { }
  }

  /** The strokes of the first `k` events, each with the room it found. */
  ghost function Strokes(run: seq<State>, events: seq<Event>, k: nat): seq<Stroke>
    requires IsRun(run, events) && k < |run|
  {
    if k == 0 then []
    else
      RunInv(run, events, k - 1);
      Strokes(run, events, k - 1) +
      if events[k - 1].Press? then [StrokeOf(events[k - 1].c, Room(run[k - 1].ed))] else []
  }

  lemma {:induction false} RunTells(run: seq<State>, events: seq<Event>, k: nat)
    requires IsRun(run, events) && k < |run|
    ensures Tells(run[k].entered, run[k].ed.line, Strokes(run, events, k))
  {
    hide Inv;
    if k > 0 {
      RunTells(run, events, k - 1);
      RunOk(run, events, k - 1);
      var s, e := run[k - 1], events[k - 1];
      hide Tells;
      if e.Press? {
        KeyTells(s.ed, e.c, s.entered, Strokes(run, events, k - 1));
        assert Strokes(run, events, k) == Strokes(run, events, k - 1) + [StrokeOf(e.c, Room(s.ed))];
        assert run[k].entered == s.entered + HandedOver(s.ed, e.c);
      } else {
        assert Strokes(run, events, k) == Strokes(run, events, k - 1);
      }
    } else {
      assert forall n: nat :: Survivors([], n) == [] + Without([], n);
    }
  }

  lemma RunOk(run: seq<State>, events: seq<Event>, k: nat)
    requires IsRun(run, events) && k < |run|
    ensures EditorOk(run[k].ed)
  {
    RunInv(run, events, k);
  }

  /**
   Over every stream of keys and schedule of reads, and with a buffer however full: what readers took, what waits for
   them and what is being typed are together the strokes with every erased character and its eraser cancelled, and the
   first two are those up to the last stroke that handed a line over.
   */
  lemma RunEdits(run: seq<State>, events: seq<Event>, k: nat)
    requires IsRun(run, events) && k < |run|
    ensures var s, strokes := run[k], Strokes(run, events, k);
            && Untagged(s.log) + s.ed.committed == Survivors(Sealed(strokes), 0)
            && Untagged(s.log) + s.ed.committed + s.ed.line == Survivors(strokes, 0)
  {
    Delivered(run, events, k);
    RunTells(run, events, k);
    TellsAll(run[k].entered, run[k].ed.line, Strokes(run, events, k));
  }

  /** A read that ends short of its limit and of a line has come to a ^D, and leaves it for the next one. */
  lemma ShortRead(run: seq<State>, events: seq<Event>, k: nat, p: nat, n: nat, bytes: seq<Byte>)
    requires IsRun(run, events) && k < |events| && events[k] == Take(p) && Known(run[k + 1], p)
    requires Known(run[k], p) && run[k + 1].replies[p] == run[k].replies[p] + [Data(n, bytes)]
    ensures 0 < |bytes| <= n
    ensures |bytes| < n && bytes[|bytes| - 1] != NEWLINE ==>
              run[k + 1].ed.committed != [] && run[k + 1].ed.committed[0] == EOT
  {
    RunInv(run, events, k);
    assert ReaderOk(run[k], p);
    var replies := run[k + 1].replies[p];
    assert replies[|replies| - 1] == Data(n, bytes);
  }

  /** In every run, a full buffer is all committed, so no reader waits while keys are dropped for want of room. */
  lemma FullMeansReady(run: seq<State>, events: seq<Event>, k: nat)
    requires IsRun(run, events) && k < |run| && |run[k].ed.committed| + |run[k].ed.line| == SIZE
    ensures run[k].ed.line == []
    ensures forall p :: Known(run[k], p) && run[k].readers[p].InRead? ==> Enabled(run[k], Take(p))
  {
    RunInv(run, events, k);
  }

  // ---------------------------------------------------------------- the ring

  /** Read, write and edit counters; all three wrap. */
  datatype Ring = Ring(buf: seq<Byte>, r: nat, w: nat, e: nat)

  /** r <= w <= e <= r + 128, as counters that wrap. */
  ghost predicate RingOk(q: Ring) {
    |q.buf| == SIZE && q.r < TWO_32 && q.w < TWO_32 && q.e < TWO_32 && Ahead(q.r, q.w) <= Ahead(q.r, q.e) <= SIZE
  }

  ghost function All(q: Ring): seq<Byte>
    requires RingOk(q)
  {
    Window(q.buf, q.r, Ahead(q.r, q.e))
  }

  ghost function Abs(q: Ring): Editor
    requires RingOk(q)
  {
    Editor(All(q)[..Ahead(q.r, q.w)], All(q)[Ahead(q.r, q.w)..])
  }

  /** The comparisons of counters that the code makes. */
  lemma Tests(q: Ring)
    requires RingOk(q)
    ensures q.e == q.w <==> Abs(q).line == []
    ensures q.r == q.w <==> Abs(q).committed == []
    ensures q.e == (q.r + SIZE) % TWO_32 <==> |All(q)| == SIZE
    ensures (q.e - q.r) % TWO_32 == |All(q)|
    ensures |All(q)| == |Abs(q).committed| + |Abs(q).line|
  {
    AheadCases(q.r, q.w);
    AheadCases(q.r, q.e);
  }

  /** A ring that is full has nothing being edited: `w` equals `e`. */
  lemma RingFull(q: Ring)
    requires RingOk(q) && EditorOk(Abs(q)) && (q.e - q.r) % TWO_32 == SIZE
    ensures q.w == q.e
  {
    Tests(q);
  }

  lemma AppendOk(q: Ring, b: Byte)
    requires RingOk(q) && |All(q)| < SIZE
    ensures var q' := q.(buf := q.buf[q.e % SIZE := b], e := (q.e + 1) % TWO_32);
            RingOk(q') && Abs(q') == Abs(q).(line := Abs(q).line + [b])
  {
    AheadStep(q.r, q.e);
    WindowPut(q.buf, q.r, q.e, b);
  }

  lemma CommitOk(q: Ring)
    requires RingOk(q)
    ensures var q' := q.(w := q.e); RingOk(q') && Abs(q') == Editor(Abs(q).committed + Abs(q).line, [])
  {
  }

  /** A character is stored, and the line handed over if it ends or fills the ring. */
  ghost function Put(q: Ring, b: Byte): Ring
    requires |q.buf| == SIZE
  {
    var q' := q.(buf := q.buf[q.e % SIZE := b], e := (q.e + 1) % TWO_32);
    if Ends(b) || q'.e == (q'.r + SIZE) % TWO_32 then q'.(w := q'.e) else q'
  }

  lemma PutOk(q: Ring, b: Byte)
    requires RingOk(q) && |Abs(q).committed| + |Abs(q).line| < SIZE
    ensures |q.buf| == SIZE && q.e % SIZE < |q.buf|
    ensures var line := Abs(q).line + [b];
            && RingOk(Put(q, b))
            && Abs(Put(q, b)) == if Ends(b) || |Abs(q).committed| + |line| == SIZE
                                 then Editor(Abs(q).committed + line, []) else Abs(q).(line := line)
  {
    Tests(q);
    AppendOk(q, b);
    var q' := q.(buf := q.buf[q.e % SIZE := b], e := (q.e + 1) % TWO_32);
    hide RingOk;
    hide Abs;
    Tests(q');
    CommitOk(q');
  }

  lemma BackOk(q: Ring)
    requires RingOk(q) && q.e != q.w
    ensures Abs(q).line != [] && Abs(q).line[|Abs(q).line| - 1] == q.buf[(q.e - 1) % TWO_32 % SIZE]
    ensures var q' := q.(e := (q.e - 1) % TWO_32);
            RingOk(q') && Abs(q') == Abs(q).(line := Abs(q).line[..|Abs(q).line| - 1])
  {
    Tests(q);
    AheadStep(q.r, q.e);
    WindowLast(q.buf, q.r, q.e);
    var q' := q.(e := (q.e - 1) % TWO_32);
    assert All(q') == All(q)[..|All(q)| - 1];
  }

  lemma TakeOk(q: Ring)
    requires RingOk(q) && q.r != q.w
    ensures |q.buf| == SIZE
    ensures Abs(q).committed != [] && Abs(q).committed[0] == q.buf[q.r % SIZE]
    ensures var q' := q.(r := (q.r + 1) % TWO_32); RingOk(q') && Abs(q') == Abs(q).(committed := Abs(q).committed[1..])
  {
    Tests(q);
    AheadStep(q.r, q.e);
    AheadStep(q.r, q.w);
    AheadCases(q.r, q.w);
    AheadCases(q.r, q.e);
    hide Ahead;
    WindowTake(q.buf, q.r, Ahead(q.r, q.e));
    hide Window;
    var q' := q.(r := (q.r + 1) % TWO_32);
    assert All(q') == All(q)[1..];
  }

  // ---------------------------------------------------------------- the input buffer in memory

  /** How a round of a read ends: with more to come, or with a reply. */
  datatype Outcome = More(got: seq<Byte>) | Done(reply: Reply)

  ghost function Round(ed: Editor, n: nat, got: seq<Byte>): (Editor, Outcome)
    requires ed.committed != []
  {
    var c, rest := ed.committed[0], ed.(committed := ed.committed[1..]);
    if c == EOT && got != [] then (ed, Done(Data(n, got)))
    else if c == EOT then (rest, Done(Eof))
    else if c == NEWLINE || |got| + 1 == n then (rest, Done(Data(n, got + [c])))
    else (rest, More(got + [c]))
  }

  /** Rounds until there is a reply or nothing left to read. */
  ghost function Drain(ed: Editor, n: nat, got: seq<Byte>): (Editor, Outcome)
    decreases |ed.committed|
  {
    if ed.committed == [] then (ed, More(got))
    else
      var (ed', o) := Round(ed, n, got);
      if o.Done? then (ed', o) else Drain(ed', n, o.got)
  }

  /** A step of a reader in a run is such a round. */
  lemma TakeIsRound(s: State, p: nat)
    requires Enabled(s, Take(p))
    ensures var (ed', o) := Round(s.ed, s.readers[p].n, s.readers[p].got);
            var s' := TakeNext(s, p);
            && s'.ed == ed'
            && (o.More? ==> s'.readers[p] == InRead(s.readers[p].n, o.got) && s'.replies == s.replies)
            && (o.Done? ==> s'.readers[p].NotReading? && s'.replies[p] == s.replies[p] + [o.reply])
  {
  }

  /**
   The first `m` of the bytes `ready` go to a read of `n` that had `got` some: it stops where it has `n`, after a
   newline, before a ^D unless it has nothing yet, and where there is no more.
   */
  ghost predicate IsRead(ready: seq<Byte>, n: nat, got: seq<Byte>, m: nat, o: Outcome) {
    && m <= |ready|
    && match o
       case More(all) => m == |ready| && all == got + ready && |all| < n && Plain(all)
       case Done(Data(limit, all)) =>
         && limit == n && all == got + ready[..m] && all != [] && Plain(all[..|all| - 1])
         && (|all| == n || all[|all| - 1] == NEWLINE || (m < |ready| && ready[m] == EOT))
         && |all| <= n && all[|all| - 1] != EOT
       case Done(Eof) => got == [] && m == 1 && ready[0] == EOT
       case Done(Interrupted(_)) => false
  }

  /** There is only one way to stop like that. */
  lemma ReadUnique(ready: seq<Byte>, n: nat, got: seq<Byte>, m: nat, o: Outcome, m': nat, o': Outcome)
    requires |got| < n && Plain(got) && IsRead(ready, n, got, m, o) && IsRead(ready, n, got, m', o')
    ensures m == m' && o == o'
  {
    ReadShorter(ready, n, got, m, o, m', o');
    ReadShorter(ready, n, got, m', o', m, o);
    var all := got + ready[..m];
    assert m == |ready| ==> ready[..m] == ready;
    assert m == 1 ==> all[|all| - 1] == ready[0];
    assert o.More? || o'.More? ==> Plain(all);
  }

  lemma ReadShorter(ready: seq<Byte>, n: nat, got: seq<Byte>, m: nat, o: Outcome, m': nat, o': Outcome)
    requires |got| < n && Plain(got) && IsRead(ready, n, got, m, o) && IsRead(ready, n, got, m', o')
    ensures m >= m'
  {
    ReadStop(ready, n, got, m, o);
    ReadGoesOn(ready, n, got, m', o');
    hide IsRead;
    if m < m' { ReadAt(ready, got, m, m'); }
  }

  /** Why a read stops. */
  lemma ReadStop(ready: seq<Byte>, n: nat, got: seq<Byte>, m: nat, o: Outcome)
    requires IsRead(ready, n, got, m, o)
    ensures m <= |ready|
    ensures var all := got + ready[..m];
            || m == |ready| || |all| == n || (got == [] && m == 1 && ready[0] == EOT)
            || (all != [] && (all[|all| - 1] == NEWLINE || ready[m] == EOT))
  {
  }

  lemma ReadAt(ready: seq<Byte>, got: seq<Byte>, m: nat, m': nat)
    requires m < m' <= |ready|
    ensures var all, all' := got + ready[..m], got + ready[..m'];
            && |all| < |all'| && all'[|all|] == ready[m]
            && (all != [] ==> all'[..|all'| - 1][|all| - 1] == all[|all| - 1])
            && (m' > 1 && got == [] ==> all'[..|all'| - 1][0] == ready[0])
            && (m' > m + 1 ==> all'[..|all'| - 1][|all|] == ready[m])
  {
  }

  /** What a read took holds an end only as its last byte, and a ^D only alone. */
  lemma ReadGoesOn(ready: seq<Byte>, n: nat, got: seq<Byte>, m: nat, o: Outcome)
    requires |got| < n && Plain(got) && IsRead(ready, n, got, m, o)
    ensures m <= |ready|
    ensures var all := got + ready[..m];
            && |all| <= n && (all != [] ==> Plain(all[..|all| - 1]))
            && (all != [] && all[|all| - 1] == EOT ==> all == [EOT] && got == [])
  {
    if o.More? {
      assert ready[..m] == ready;
    } else if o.reply.Eof? {
      assert ready[..1] == [EOT];
      assert got + [EOT] == [EOT];
    }
  }

  lemma ReadOneMore(ready: seq<Byte>, n: nat, got: seq<Byte>, k: nat, o: Outcome)
    requires ready != [] && !Ends(ready[0]) && IsRead(ready[1..], n, got + [ready[0]], k, o)
    ensures IsRead(ready, n, got, k + 1, o)
  {
    assert got + [ready[0]] + ready[1..] == got + ready;
    assert got + [ready[0]] + ready[1..][..k] == got + ready[..k + 1];
  }

  lemma ReadStops(ed: Editor, n: nat, got: seq<Byte>) returns (m: nat)
    requires |got| < n && Plain(got) && ed.committed != [] && Round(ed, n, got).1.Done?
    ensures var (ed', o) := Round(ed, n, got);
            m <= |ed.committed| && ed' == ed.(committed := ed.committed[m..]) && IsRead(ed.committed, n, got, m, o)
  {
    var ready := ed.committed;
    m := if ready[0] == EOT && got != [] then 0 else 1;
    assert ready[..m] == if m == 0 then [] else [ready[0]];
    assert ready[0..] == ready && got + [] == got && (got + [ready[0]])[..|got|] == got;
  }

  /** The rounds of a read end exactly there. */
  lemma {:induction false} DrainReads(ed: Editor, n: nat, got: seq<Byte>)
    returns (m: nat)
    requires |got| < n && Plain(got)
    ensures var (ed', o) := Drain(ed, n, got);
            m <= |ed.committed| && ed' == ed.(committed := ed.committed[m..]) && IsRead(ed.committed, n, got, m, o)
    decreases |ed.committed|
  {
    if ed.committed == [] {
      m := 0;
      assert got + [] == got;
    } else {
      var (ed1, o1) := Round(ed, n, got);
      if o1.Done? {
        m := ReadStops(ed, n, got);
      } else {
        var k := DrainReads(ed1, n, o1.got);
        hide IsRead;
        ReadOneMore(ed.committed, n, got, k, Drain(ed1, n, o1.got).1);
        m := k + 1;
      }
    }
  }

  class Input {
    const buf: array<Byte>
    var r: nat
    var w: nat
    var e: nat

    ghost function View(): Ring
      reads this, buf
    {
      Ring(buf[..], r, w, e)
    }

    ghost predicate Valid()
      reads this, buf
    {
      RingOk(View()) && EditorOk(Abs(View()))
    }

    constructor ()
      ensures Valid() && Abs(View()) == Editor([], []) && fresh(buf)
    {
      buf := new Byte[SIZE](_ => 0);
      r, w, e := 0, 0, 0;
    }

    method Back()
      requires Valid() && e != w
      modifies this`e
      ensures Valid() && Abs(View()) == old(Abs(View())).(line := old(Abs(View())).line[..|old(Abs(View())).line| - 1])
    {
      BackOk(View());
      hide RingOk;
      e := (e - 1) % TWO_32;
    }

    /** The loop for ^U: since a line holds no newline, all of it goes. */
    method KillLine()
      requires Valid()
      modifies this`e
      ensures Valid() && Abs(View()) == Key(old(Abs(View())), KILL_LINE)
    {
      Tests(View());
      hide RingOk;
      hide Abs;
      while e != w && buf[(e - 1) % TWO_32 % SIZE] != NEWLINE
        invariant Valid() && Abs(View()).committed == old(Abs(View())).committed
        decreases |Abs(View()).line|
      {
        Tests(View());
        Back();
      }
      Tests(View());
      if e != w { BackOk(View()); }
    }

    /** A character goes into the line, which is handed over if it ends or fills the ring. */
    method Store(c: Byte)
      requires Valid() && c != 0 && |Abs(View()).committed| + |Abs(View()).line| < SIZE
      modifies this`e, this`w, buf
      ensures Valid() && Abs(View()) == Typed(old(Abs(View())), c)
    {
      hide RingOk;
      hide Abs;
      var b := if c == RETURN then NEWLINE else c;
      PutOk(View(), b);
      ghost var before := View();
      buf[e % SIZE] := b;
      e := (e + 1) % TWO_32;
      if b == NEWLINE || b == EOT || e == (r + SIZE) % TWO_32 {
        w := e;
      }
      assert View() == Put(before, b);
    }

    /** `consoleInterrupt` for one key. */
    method Press(c: Byte)
      requires Valid()
      modifies this`e, this`w, buf
      ensures Valid() && Abs(View()) == Key(old(Abs(View())), c)
    {
      Tests(View());
      if c == LIST {
      } else if c == KILL_LINE {
        KillLine();
      } else if c == BACKSPACE || c == DELETE {
        if e != w { Back(); }
      } else if c != 0 && (e - r) % TWO_32 < SIZE {
        Store(c);
      }
    }

    /** `consoleInterrupt`: every key there is. */
    method Interrupt(keys: seq<Byte>)
      requires Valid()
      modifies this`e, this`w, buf
      ensures Valid() && Abs(View()) == Keys(old(Abs(View())), keys)
    {
      hide Key;
      hide Abs;
      hide Valid;
      ViewOk();
      for k := 0 to |keys|
        invariant Valid() && RingOk(View()) && Abs(View()) == Keys(old(Abs(View())), keys[..k])
      {
        Press(keys[k]);
        ViewOk();
        assert keys[..k + 1][..k] == keys[..k];
      }
      assert keys[..|keys|] == keys;
    }

    lemma ViewOk()
      requires Valid()
      ensures RingOk(View())
    {
    }

    /** The loop of `consoleRead` from where it stands, with `got` so far, up to its reply or to where it must wait. */
    method Read(n: nat, got: seq<Byte>) returns (o: Outcome)
      requires Valid() && (|got| < n || (n == 0 && got == []))
      modifies this`r
      ensures Valid()
      ensures n == 0 ==> o == Done(Data(0, [])) && View() == old(View())
      ensures n > 0 ==> (Abs(View()), o) == Drain(old(Abs(View())), n, got)
      ensures o.More? ==> Abs(View()).committed == []
    {
      if n == 0 { return Done(Data(0, [])); }
      hide RingOk;
      hide Abs;
      hide EditorOk;
      var have := got;
      while r != w
        invariant Valid() && |have| < n && Drain(Abs(View()), n, have) == Drain(old(Abs(View())), n, got)
        decreases |Abs(View()).committed|
      {
        TakeOk(View());
        ShorterOk(Abs(View()));
        var c := buf[r % SIZE];
        if c == EOT && have != [] { return Done(Data(n, have)); }
        r := (r + 1) % TWO_32;
        if c == EOT { return Done(Eof); }
        have := have + [c];
        if c == NEWLINE || |have| == n { return Done(Data(n, have)); }
      }
      Tests(View());
      return More(have);
    }
  }

  lemma ShorterOk(ed: Editor)
    requires EditorOk(ed) && ed.committed != []
    ensures EditorOk(ed.(committed := ed.committed[1..]))
  {
  }
}
