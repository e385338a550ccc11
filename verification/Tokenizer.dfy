/** Splitting a template into literal text and {{ expressions }}. */
module Tokenizer {
  import opened Collections
  import opened Text

  datatype Chunk = LiteralChunk(text: string) | ExpressionChunk(source: string, offset: nat)

  datatype SyntaxError = Unterminated(column: nat) | EmptyExpression(column: nat)

  // ---- Searching for a doubled brace ----------------------------------------------------------

  /** A doubled c starts at position i. */
  predicate PairAt(s: string, c: char, i: int) {
    0 <= i && i + 1 < |s| && s[i] == c && s[i + 1] == c
  }

  /** The first position at or after from where a doubled c starts. */
  function FindPair(s: string, c: char, from: nat): (r: Option<nat>)
    ensures r.Some? ==> from <= r.value && r.value + 2 <= |s|
    decreases |s| - from
  {
    if from >= |s| then None
    else if PairAt(s, c, from) then Some(from)
    else FindPair(s, c, from + 1)
  }

  /** The search result is a match, and the first one. */
  lemma {:induction false} FindPairIs(s: string, c: char, from: nat)
    ensures FindPair(s, c, from).Some? ==> PairAt(s, c, FindPair(s, c, from).value)
    ensures forall i | from <= i < (if FindPair(s, c, from).Some? then FindPair(s, c, from).value else |s|) :: !PairAt(s, c, i)
    decreases |s| - from
  {
    if from < |s| && !PairAt(s, c, from) {
      FindPairIs(s, c, from + 1);
    }
  }

  lemma FirstPair(s: string, c: char, from: nat, at: nat)
    requires from <= at && PairAt(s, c, at) && forall i | from <= i < at :: !PairAt(s, c, i)
    ensures FindPair(s, c, from) == Some(at)
  {
    FindPairIs(s, c, from);
  }

  ghost predicate NoPair(s: string, c: char) {
    forall i :: !PairAt(s, c, i)
  }

  // ---- The tokenizer ------------------------------------------------------------------------------

  /** What one turn of the loop does: it stops, or cuts off chunks and moves the cursor. */
  datatype Cut = Stop(result: Result<seq<Chunk>, SyntaxError>) | More(chunks: seq<Chunk>, next: nat)

  function LiteralOf(text: string): seq<Chunk> {
    if text == [] then [] else [LiteralChunk(text)]
  }

  ghost function CutAt(t: string, cursor: nat): (c: Cut)
    requires cursor < |t|
    ensures c.More? ==> cursor < c.next <= |t|
  {
    match FindPair(t, '{', cursor)
    case None => Stop(Success([LiteralChunk(t[cursor..])]))
    case Some(open) =>
      match FindPair(t, '}', open + 2)
      case None => Stop(Failure(Unterminated(open + 1)))
      case Some(close) =>
        var source := Strip(t[open + 2..close], IsSpace);
        if source == [] then Stop(Failure(EmptyExpression(open + 1)))
        else More(LiteralOf(t[cursor..open]) + [ExpressionChunk(source, open)], close + 2)
  }

  /** Puts chunks already cut in front of what the rest yields. */
  ghost function Prepend(chunks: seq<Chunk>, rest: Result<seq<Chunk>, SyntaxError>): Result<seq<Chunk>, SyntaxError> {
    match rest
    case Success(more) => Success(chunks + more)
    case Failure(e) => Failure(e)
  }

  ghost function TokenizeFrom(t: string, cursor: nat): Result<seq<Chunk>, SyntaxError>
    requires cursor <= |t|
    decreases |t| - cursor
  {
    if cursor == |t| then Success([])
    else
      match CutAt(t, cursor)
      case Stop(r) => r
      case More(chunks, next) => Prepend(chunks, TokenizeFrom(t, next))
  }

  lemma PrependTwice(a: seq<Chunk>, b: seq<Chunk>, rest: Result<seq<Chunk>, SyntaxError>)
    ensures Prepend(a, Prepend(b, rest)) == Prepend(a + b, rest)
    ensures Prepend([], rest) == rest
  {
    if rest.Success? {
      assert a + (b + rest.value) == (a + b) + rest.value && [] + rest.value == rest.value;
    }
  }

  /** One turn: the literal up to the next opening brace and the expression it opens. */
  method CutOne(t: string, cursor: nat) returns (cut: Cut)
    requires cursor < |t|
    ensures cut == CutAt(t, cursor)
  {
    var openAt := FindPair(t, '{', cursor);
    if openAt.None? {
      return Stop(Success([LiteralChunk(t[cursor..])]));
    }
    var open := openAt.value;
    var chunks := [];
    if open > cursor {
      chunks := [LiteralChunk(t[cursor..open])];
    }
    var closeAt := FindPair(t, '}', open + 2);
    if closeAt.None? {
      return Stop(Failure(Unterminated(open + 1)));
    }
    var source := Strip(t[open + 2..closeAt.value], IsSpace);
    if source == [] {
      return Stop(Failure(EmptyExpression(open + 1)));
    }
    cut := More(chunks + [ExpressionChunk(source, open)], closeAt.value + 2);
  }

  method Tokenize(t: string) returns (r: Result<seq<Chunk>, SyntaxError>)
    ensures r == TokenizeFrom(t, 0)
  {
    var chunks: seq<Chunk> := [];
    var cursor := 0;
    PrependTwice([], [], TokenizeFrom(t, 0));
    while cursor < |t|
      invariant cursor <= |t|
      invariant TokenizeFrom(t, 0) == Prepend(chunks, TokenizeFrom(t, cursor))
      decreases |t| - cursor
    {
      TokenizeTurn(t, cursor, chunks);
      var cut := CutOne(t, cursor);
      if cut.Stop? {
        return if cut.result.Failure? then cut.result else Success(chunks + cut.result.value);
      }
      chunks := chunks + cut.chunks;
      cursor := cut.next;
    }
    r := Success(chunks);
    PrependEnd(chunks);
  }

  /** What one turn leaves to do, with the chunks cut so far in front. */
  lemma TokenizeTurn(t: string, cursor: nat, before: seq<Chunk>)
    requires cursor < |t|
    ensures match CutAt(t, cursor)
            case Stop(r) => Prepend(before, TokenizeFrom(t, cursor)) == Prepend(before, r)
            case More(chunks, next) => Prepend(before, TokenizeFrom(t, cursor)) == Prepend(before + chunks, TokenizeFrom(t, next))
  {
    var cut := CutAt(t, cursor);
    if cut.More? {
      PrependTwice(before, cut.chunks, TokenizeFrom(t, cut.next));
    }
  }

  lemma PrependEnd(chunks: seq<Chunk>)
    ensures Prepend(chunks, Success([])) == Success(chunks)
  {
    assert chunks + [] == chunks;
  }

  // ---- The grammar: literal text before each expression, and a literal tail --------------------------

  datatype Segment = Segment(text: string, raw: string)

  datatype Tiling = Tiling(segments: seq<Segment>, tail: string)

  ghost function Spell(x: Tiling): string
    decreases |x.segments|
  {
    if x.segments == [] then x.tail
    else
      var s := x.segments[0];
      s.text + ("{{" + s.raw + "}}") + Spell(Rest(x))
  }

  ghost function Rest(x: Tiling): Tiling
    requires x.segments != []
  {
    Tiling(x.segments[1..], x.tail)
  }

  /** The chunks a tiling stands for: blank literals vanish, expression bodies are stripped. */
  ghost function ChunksOf(x: Tiling, offset: nat): seq<Chunk>
    decreases |x.segments|
  {
    if x.segments == [] then LiteralOf(x.tail)
    else
      var s := x.segments[0];
      LiteralOf(s.text) + [ExpressionChunk(Strip(s.raw, IsSpace), offset + |s.text|)] +
      ChunksOf(Rest(x), offset + |s.text| + |s.raw| + 4)
  }

  ghost function HeadOf(s: Segment, offset: nat): seq<Chunk> {
    LiteralOf(s.text) + [ExpressionChunk(Strip(s.raw, IsSpace), offset + |s.text|)]
  }

  ghost function After(s: Segment, offset: nat): nat {
    offset + |s.text| + |s.raw| + 4
  }

  /** Text before an expression holds no doubled opening brace and does not end in one brace. */
  ghost predicate GoodText(text: string) {
    NoPair(text, '{') && (text != [] ==> Last(text) != '{')
  }

  /** An expression body closes at the first doubled brace and is not blank. */
  ghost predicate GoodRaw(raw: string) {
    NoPair(raw, '}') && (raw != [] ==> Last(raw) != '}') && Strip(raw, IsSpace) != []
  }

  ghost predicate Good(x: Tiling) {
    NoPair(x.tail, '{') && forall i | 0 <= i < |x.segments| :: GoodText(x.segments[i].text) && GoodRaw(x.segments[i].raw)
  }

  // ---- Tokenizing inverts spelling ------------------------------------------------------------------

  lemma OpenAfterLiteral(t: string, text: string, rest: string, cursor: nat)
    requires cursor <= |t| && t[cursor..] == text + "{{" + rest
    requires NoPair(text, '{') && (text != [] ==> Last(text) != '{')
    ensures FindPair(t, '{', cursor) == Some(cursor + |text|)
  {
    var tail := text + "{{" + rest;
    assert forall i | 0 <= i < |tail| :: t[cursor + i] == tail[i];
    assert tail[|text|] == '{' && tail[|text| + 1] == '{';
    assert PairAt(t, '{', cursor + |text|);
    forall i | cursor <= i < cursor + |text|
      ensures !PairAt(t, '{', i)
    {
      assert t[i] == text[i - cursor];
      assert !PairAt(text, '{', i - cursor);
      if i + 1 < cursor + |text| { assert t[i + 1] == text[i + 1 - cursor]; }
    }
    FirstPair(t, '{', cursor, cursor + |text|);
  }

  lemma NoOpenInTail(t: string, cursor: nat)
    requires cursor <= |t| && NoPair(t[cursor..], '{')
    ensures FindPair(t, '{', cursor) == None
  {
    FindPairIs(t, '{', cursor);
    if FindPair(t, '{', cursor).Some? {
      assert !PairAt(t[cursor..], '{', FindPair(t, '{', cursor).value - cursor);
    }
  }

  lemma CloseAfterRaw(t: string, raw: string, rest: string, open: nat)
    requires open + 2 <= |t| && t[open + 2..] == raw + "}}" + rest
    requires NoPair(raw, '}') && (raw != [] ==> Last(raw) != '}')
    ensures FindPair(t, '}', open + 2) == Some(open + 2 + |raw|)
    ensures t[open + 2..open + 2 + |raw|] == raw
  {
    var tail, start := raw + "}}" + rest, open + 2;
    assert forall i | 0 <= i < |tail| :: t[start + i] == tail[i];
    assert tail[|raw|] == '}' && tail[|raw| + 1] == '}';
    assert PairAt(t, '}', start + |raw|);
    forall i | start <= i < start + |raw|
      ensures !PairAt(t, '}', i)
    {
      assert t[i] == raw[i - start];
      assert !PairAt(raw, '}', i - start);
      if i + 1 < start + |raw| { assert t[i + 1] == raw[i + 1 - start]; }
    }
    FirstPair(t, '}', start, start + |raw|);
  }

  /** One expression, with the literal before it, is cut off in one turn. */
  lemma CutExpression(t: string, cursor: nat, s: Segment, rest: string)
    requires cursor <= |t| && t[cursor..] == s.text + ("{{" + s.raw + "}}") + rest
    requires GoodText(s.text) && GoodRaw(s.raw)
    ensures
      var open := cursor + |s.text|;
      && cursor < |t| && open + |s.raw| + 4 <= |t| && t[open + |s.raw| + 4..] == rest
      && CutAt(t, cursor) == More(LiteralOf(s.text) + [ExpressionChunk(Strip(s.raw, IsSpace), open)], open + |s.raw| + 4)
  {
    LocateExpression(t, cursor, s, rest);
    CutFrom(t, cursor, cursor + |s.text|, cursor + |s.text| + 2 + |s.raw|);
  }

  lemma LocateExpression(t: string, cursor: nat, s: Segment, rest: string)
    requires cursor <= |t| && t[cursor..] == s.text + ("{{" + s.raw + "}}") + rest
    requires NoPair(s.text, '{') && (s.text != [] ==> Last(s.text) != '{')
    requires NoPair(s.raw, '}') && (s.raw != [] ==> Last(s.raw) != '}')
    ensures var open := cursor + |s.text|;
      && cursor < |t| && open + |s.raw| + 4 <= |t| && t[open + |s.raw| + 4..] == rest
      && t[cursor..open] == s.text && t[open + 2..open + 2 + |s.raw|] == s.raw
      && FindPair(t, '{', cursor) == Some(open) && FindPair(t, '}', open + 2) == Some(open + 2 + |s.raw|)
  {
    SliceAfter(t, cursor, s, rest);
    OpenAfterLiteral(t, s.text, s.raw + "}}" + rest, cursor);
    CloseAfterRaw(t, s.raw, rest, cursor + |s.text|);
  }

  lemma CutFrom(t: string, cursor: nat, open: nat, close: nat)
    requires cursor < |t| && FindPair(t, '{', cursor) == Some(open) && FindPair(t, '}', open + 2) == Some(close)
    requires Strip(t[open + 2..close], IsSpace) != []
    ensures CutAt(t, cursor) ==
            More(LiteralOf(t[cursor..open]) + [ExpressionChunk(Strip(t[open + 2..close], IsSpace), open)], close + 2)
  {
  }

  lemma SliceAfter(t: string, cursor: nat, s: Segment, rest: string)
    requires cursor <= |t| && t[cursor..] == s.text + ("{{" + s.raw + "}}") + rest
    ensures var open := cursor + |s.text|;
      && open + |s.raw| + 4 <= |t|
      && t[cursor..] == s.text + "{{" + (s.raw + "}}" + rest)
      && t[cursor..open] == s.text
      && t[open + 2..] == s.raw + "}}" + rest
      && t[open + |s.raw| + 4..] == rest
  {
    var open := cursor + |s.text|;
    assert |t[cursor..]| == |s.text| + |s.raw| + 4 + |rest|;
    assert t[cursor..] == s.text + "{{" + (s.raw + "}}" + rest);
    assert t[cursor..open] == t[cursor..][..|s.text|];
    assert t[open + 2..] == t[cursor..][|s.text| + 2..];
    assert t[open + |s.raw| + 4..] == t[open + 2..][|s.raw| + 2..];
  }

  /** Every good tiling tokenizes to its own chunks. */
  lemma {:induction false} TokenizeSpelled(t: string, cursor: nat, x: Tiling)
    requires cursor <= |t| && Good(x) && t[cursor..] == Spell(x)
    ensures TokenizeFrom(t, cursor) == Success(ChunksOf(x, cursor))
    decreases |x.segments|
  {
    if x.segments == [] {
      TokenizeTail(t, cursor);
    } else {
      GoodRest(x);
      var next := After(x.segments[0], cursor);
      FirstCut(t, cursor, x);
      TokenizeSpelled(t, next, Rest(x));
      TokenizeStep(t, cursor, ChunksOf(Rest(x), next));
      ChunksStep(x, cursor);
    }
  }

  lemma TokenizeTail(t: string, cursor: nat)
    requires cursor <= |t| && NoPair(t[cursor..], '{')
    ensures TokenizeFrom(t, cursor) == Success(LiteralOf(t[cursor..]))
  {
    if cursor < |t| { NoOpenInTail(t, cursor); }
  }

  /** The first turn cuts off exactly the first segment. */
  lemma FirstCut(t: string, cursor: nat, x: Tiling)
    requires cursor <= |t| && t[cursor..] == Spell(x) && x.segments != []
    requires GoodText(x.segments[0].text) && GoodRaw(x.segments[0].raw)
    ensures
      var s := x.segments[0];
      && cursor < After(s, cursor) <= |t| && t[After(s, cursor)..] == Spell(Rest(x))
      && CutAt(t, cursor) == More(HeadOf(s, cursor), After(s, cursor))
  {
    SpellSplits(x);
    CutExpression(t, cursor, x.segments[0], Spell(Rest(x)));
  }

  lemma SpellSplits(x: Tiling)
    requires x.segments != []
    ensures Spell(x) == x.segments[0].text + ("{{" + x.segments[0].raw + "}}") + Spell(Rest(x))
  {
  }

  lemma ChunksStep(x: Tiling, offset: nat)
    requires x.segments != []
    ensures ChunksOf(x, offset) == HeadOf(x.segments[0], offset) + ChunksOf(Rest(x), After(x.segments[0], offset))
  {
  }

  lemma TokenizeStep(t: string, cursor: nat, rest: seq<Chunk>)
    requires cursor < |t| && CutAt(t, cursor).More? && TokenizeFrom(t, CutAt(t, cursor).next) == Success(rest)
    ensures TokenizeFrom(t, cursor) == Success(CutAt(t, cursor).chunks + rest)
  {
  }

  lemma GoodRest(x: Tiling)
    requires Good(x) && x.segments != []
    ensures Good(Rest(x)) && GoodText(x.segments[0].text) && GoodRaw(x.segments[0].raw)
  {
    assert forall i | 0 <= i < |Rest(x).segments| :: Rest(x).segments[i] == x.segments[i + 1];
  }

  /** Whatever tokenizes has a good tiling, and the chunks are those of the tiling. */
  lemma {:induction false} TokenizedIsTiled(t: string, cursor: nat) returns (x: Tiling)
    requires cursor <= |t| && TokenizeFrom(t, cursor).Success?
    ensures Good(x) && Spell(x) == t[cursor..]
    decreases |t| - cursor
  {
    if OpensNothing(t, cursor) {
      x := TailTiling(t, cursor);
    } else {
      var open, close := SuccessCuts(t, cursor);
      CutEnds(t, cursor, open, close);
      var rest := TokenizedIsTiled(t, close + 2);
      x := TileFront(t, cursor, open, close, rest);
    }
  }

  ghost predicate OpensNothing(t: string, cursor: nat) {
    cursor >= |t| || FindPair(t, '{', cursor).None?
  }

  lemma TailTiling(t: string, cursor: nat) returns (x: Tiling)
    requires cursor <= |t| && OpensNothing(t, cursor)
    ensures Good(x) && Spell(x) == t[cursor..]
  {
    x := Tiling([], t[cursor..]);
    TailHasNoOpen(t, cursor);
  }

  /** The next expression stands between the doubled braces at open and close, and is not blank. */
  ghost predicate CutsOut(t: string, cursor: nat, open: nat, close: nat) {
    && cursor < |t| && FindPair(t, '{', cursor) == Some(open) && FindPair(t, '}', open + 2) == Some(close)
    && Strip(t[open + 2..close], IsSpace) != []
  }

  lemma CutEnds(t: string, cursor: nat, open: nat, close: nat)
    requires CutsOut(t, cursor, open, close)
    ensures cursor < close + 2 <= |t|
  {
  }

  lemma TileFront(t: string, cursor: nat, open: nat, close: nat, rest: Tiling) returns (x: Tiling)
    requires CutsOut(t, cursor, open, close) && close + 2 <= |t|
    requires Good(rest) && Spell(rest) == t[close + 2..]
    ensures Good(x) && Spell(x) == t[cursor..]
  {
    FindPairIs(t, '{', cursor);
    FindPairIs(t, '}', open + 2);
    SegmentIsGood(t, cursor, open, close);
    x := AddSegment(Segment(t[cursor..open], t[open + 2..close]), rest);
    SegmentSpells(t, cursor, open, close);
  }

  lemma TailHasNoOpen(t: string, cursor: nat)
    requires cursor <= |t| && OpensNothing(t, cursor)
    ensures NoPair(t[cursor..], '{')
  {
    FindPairIs(t, '{', cursor);
    forall i ensures !PairAt(t[cursor..], '{', i) { assert 0 <= i && cursor + i < |t| ==> !PairAt(t, '{', cursor + i); }
  }

  lemma SuccessCuts(t: string, cursor: nat) returns (open: nat, close: nat)
    requires cursor <= |t| && TokenizeFrom(t, cursor).Success? && !OpensNothing(t, cursor)
    ensures CutsOut(t, cursor, open, close) && close + 2 <= |t| && TokenizeFrom(t, close + 2).Success?
  {
    open := FindPair(t, '{', cursor).value;
    close := FindPair(t, '}', open + 2).value;
  }

  lemma AddSegment(s: Segment, rest: Tiling) returns (x: Tiling)
    requires GoodText(s.text) && GoodRaw(s.raw) && Good(rest)
    ensures Good(x) && Spell(x) == s.text + ("{{" + s.raw + "}}") + Spell(rest) && x.tail == rest.tail
  {
    x := Tiling([s] + rest.segments, rest.tail);
    assert Rest(x) == rest;
  }

  lemma SegmentIsGood(t: string, cursor: nat, open: nat, close: nat)
    requires cursor < |t| && FindPair(t, '{', cursor) == Some(open) && FindPair(t, '}', open + 2) == Some(close)
    requires Strip(t[open + 2..close], IsSpace) != []
    ensures GoodText(t[cursor..open]) && GoodRaw(t[open + 2..close])
  {
    var text, raw := t[cursor..open], t[open + 2..close];
    FindPairIs(t, '{', cursor);
    FindPairIs(t, '}', open + 2);
    forall i ensures !PairAt(text, '{', i) { assert 0 <= i && i + 1 < |text| ==> !PairAt(t, '{', cursor + i); }
    forall i ensures !PairAt(raw, '}', i) { assert 0 <= i && i + 1 < |raw| ==> !PairAt(t, '}', open + 2 + i); }
    if text != [] { assert !PairAt(t, '{', open - 1); }
    if raw != [] { assert !PairAt(t, '}', close - 1); }
  }

  lemma SegmentSpells(t: string, cursor: nat, open: nat, close: nat)
    requires cursor <= open && PairAt(t, '{', open) && open + 2 <= close && PairAt(t, '}', close)
    ensures t[cursor..open] + ("{{" + t[open + 2..close] + "}}") + t[close + 2..] == t[cursor..]
  {
    assert t[open..open + 2] == "{{" && t[close..close + 2] == "}}";
    assert t[cursor..] == t[cursor..open] + t[open..open + 2] + t[open + 2..close] + t[close..close + 2] + t[close + 2..];
  }

  /**
   The tokenizer accepts exactly the templates with a good tiling, and yields the
   chunks of that tiling.
   */
  lemma TokenizerMeetsGrammar(t: string)
    ensures TokenizeFrom(t, 0).Success? <==> exists x :: Good(x) && Spell(x) == t
    ensures forall x | Good(x) && Spell(x) == t :: TokenizeFrom(t, 0) == Success(ChunksOf(x, 0))
  {
    assert t[0..] == t;
    forall x | Good(x) && Spell(x) == t
      ensures TokenizeFrom(t, 0) == Success(ChunksOf(x, 0))
    {
      TokenizeSpelled(t, 0, x);
    }
    if TokenizeFrom(t, 0).Success? {
      var x := TokenizedIsTiled(t, 0);
      assert Good(x) && Spell(x) == t;
    }
  }

  // ---- What is wrong with the other templates ----------------------------------------------------------

  /** A doubled opening brace at position o, after a good start of the template, is never closed or closes a blank. */
  ghost predicate FaultAt(t: string, cursor: nat, x: Tiling, o: nat, e: SyntaxError) {
    && cursor <= o && PairAt(t, '{', o)
    && Good(x) && GoodText(x.tail) && Spell(x) == t[cursor..o]
    && match e
       case Unterminated(column) => column == o + 1 && forall c | c >= o + 2 :: !PairAt(t, '}', c)
       case EmptyExpression(column) => column == o + 1 && exists c :: ClosesBlank(t, o, c)
  }

  /** Nothing but blanks stands between the doubled brace at o and the first doubled closing brace, at c. */
  ghost predicate ClosesBlank(t: string, o: nat, c: nat) {
    o + 2 <= c && PairAt(t, '}', c) && (forall i | o + 2 <= i < c :: !PairAt(t, '}', i)) && forall i | o + 2 <= i < c :: IsSpace(t[i])
  }

  lemma StripBlank(s: string)
    requires Strip(s, IsSpace) == []
    ensures forall i | 0 <= i < |s| :: IsSpace(s[i])
  {
    var i, j := StripIs(s, IsSpace);
  }

  lemma StopIsFault(t: string, cursor: nat, e: SyntaxError) returns (x: Tiling, o: nat)
    requires cursor < |t| && CutAt(t, cursor) == Stop(Failure(e))
    ensures FaultAt(t, cursor, x, o, e)
  {
    o := FindPair(t, '{', cursor).value;
    x := Tiling([], t[cursor..o]);
    FindPairIs(t, '{', cursor);
    FindPairIs(t, '}', o + 2);
    forall i ensures !PairAt(t[cursor..o], '{', i) { assert 0 <= i && i + 1 < o - cursor ==> !PairAt(t, '{', cursor + i); }
    assert o > cursor ==> !PairAt(t, '{', o - 1);
    if e.EmptyExpression? {
      var c := FindPair(t, '}', o + 2).value;
      StripBlank(t[o + 2..c]);
      assert forall i | o + 2 <= i < c :: t[i] == t[o + 2..c][i - o - 2];
      assert ClosesBlank(t, o, c);
    }
  }

  lemma FrontOfFault(t: string, cursor: nat, open: nat, close: nat, rest: Tiling, o: nat, e: SyntaxError) returns (x: Tiling)
    requires cursor < |t| && FindPair(t, '{', cursor) == Some(open) && FindPair(t, '}', open + 2) == Some(close)
    requires Strip(t[open + 2..close], IsSpace) != [] && FaultAt(t, close + 2, rest, o, e)
    ensures FaultAt(t, cursor, x, o, e)
  {
    FindPairIs(t, '{', cursor);
    FindPairIs(t, '}', open + 2);
    SegmentIsGood(t, cursor, open, close);
    x := AddSegment(Segment(t[cursor..open], t[open + 2..close]), rest);
    SegmentSpellsTo(t, cursor, open, close, o);
  }

  lemma SegmentSpellsTo(t: string, cursor: nat, open: nat, close: nat, o: nat)
    requires cursor <= open && PairAt(t, '{', open) && open + 2 <= close && PairAt(t, '}', close) && close + 2 <= o <= |t|
    ensures t[cursor..open] + ("{{" + t[open + 2..close] + "}}") + t[close + 2..o] == t[cursor..o]
  {
    SegmentSpells(t[..o], cursor, open, close);
    assert t[..o][cursor..open] == t[cursor..open] && t[..o][open + 2..close] == t[open + 2..close];
    assert t[..o][close + 2..] == t[close + 2..o] && t[..o][cursor..] == t[cursor..o];
  }

  lemma MoreCuts(t: string, cursor: nat, e: SyntaxError) returns (open: nat, close: nat)
    requires cursor < |t| && CutAt(t, cursor).More? && TokenizeFrom(t, cursor) == Failure(e)
    ensures FindPair(t, '{', cursor) == Some(open) && FindPair(t, '}', open + 2) == Some(close)
    ensures Strip(t[open + 2..close], IsSpace) != [] && TokenizeFrom(t, close + 2) == Failure(e) && cursor < close + 2
  {
    open := FindPair(t, '{', cursor).value;
    close := FindPair(t, '}', open + 2).value;
  }

  lemma {:induction false} FailureIsFault(t: string, cursor: nat, e: SyntaxError) returns (x: Tiling, o: nat)
    requires cursor <= |t| && TokenizeFrom(t, cursor) == Failure(e)
    ensures FaultAt(t, cursor, x, o, e)
    decreases |t| - cursor
  {
    if CutAt(t, cursor).Stop? {
      x, o := StopIsFault(t, cursor, e);
    } else {
      var open, close := MoreCuts(t, cursor, e);
      var rest;
      rest, o := FailureIsFault(t, close + 2, e);
      x := FrontOfFault(t, cursor, open, close, rest, o, e);
    }
  }

  /** A refused template is refused at its first fault, with the column of the brace that opens it. */
  lemma RefusedAtFault(t: string)
    requires TokenizeFrom(t, 0).Failure?
    ensures exists x, o :: FaultAt(t, 0, x, o, TokenizeFrom(t, 0).error)
  {
    var x, o := FailureIsFault(t, 0, TokenizeFrom(t, 0).error);
  }
}
