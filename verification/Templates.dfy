/** What tokenized templates look like, printing them back, and resolving them. */
module Templates {
  import opened Collections
  import opened Text
  import opened Tokenizer

  // ---- The shape of a chunk list --------------------------------------------------------------

  ghost predicate GoodChunk(c: Chunk) {
    match c
    case LiteralChunk(text) => text != [] && NoPair(text, '{')
    case ExpressionChunk(source, _) => source != [] && NoPair(source, '}') && Trimmed(source, IsSpace)
  }

  ghost predicate GoodChunks(cs: seq<Chunk>) {
    && (forall i | 0 <= i < |cs| :: GoodChunk(cs[i]))
    && (forall i | 0 < i < |cs| :: cs[i].LiteralChunk? ==> cs[i - 1].ExpressionChunk?)
  }

  lemma SourceIsGood(raw: string)
    requires GoodRaw(raw)
    ensures GoodChunk(ExpressionChunk(Strip(raw, IsSpace), 0))
  {
    var i, j := StripIs(raw, IsSpace);
    forall k
      ensures !PairAt(raw[i..j], '}', k)
    {
      assert 0 <= k && k + 1 < j - i ==> !PairAt(raw, '}', i + k);
    }
  }

  lemma JoinChunks(literal: seq<Chunk>, e: Chunk, rest: seq<Chunk>)
    requires |literal| <= 1 && GoodChunks(literal) && GoodChunk(e) && e.ExpressionChunk? && GoodChunks(rest)
    ensures GoodChunks(literal + [e] + rest)
  {
    var all := literal + [e] + rest;
    forall i | 0 <= i < |all|
      ensures GoodChunk(all[i])
    {
      if i > |literal| { assert all[i] == rest[i - |literal| - 1]; }
    }
    forall i | 0 < i < |all|
      ensures all[i].LiteralChunk? ==> all[i - 1].ExpressionChunk?
    {
      if i > |literal| + 1 { assert all[i] == rest[i - |literal| - 1] && all[i - 1] == rest[i - |literal| - 2]; }
    }
  }

  lemma {:induction false} TilingGivesGoodChunks(x: Tiling, offset: nat)
    requires Good(x)
    ensures GoodChunks(ChunksOf(x, offset))
    decreases |x.segments|
  {
    if x.segments != [] {
      var s := x.segments[0];
      GoodRest(x);
      TilingGivesGoodChunks(Rest(x), offset + |s.text| + |s.raw| + 4);
      SourceIsGood(s.raw);
      JoinChunks(LiteralOf(s.text), ExpressionChunk(Strip(s.raw, IsSpace), offset + |s.text|),
                 ChunksOf(Rest(x), offset + |s.text| + |s.raw| + 4));
    }
  }

  /** Literals are nonempty, free of '{{' and never adjacent; sources are nonempty, stripped and free of '}}'. */
  lemma TokenizedIsGood(t: string)
    requires TokenizeFrom(t, 0).Success?
    ensures GoodChunks(TokenizeFrom(t, 0).value)
  {
    var x := TokenizedIsTiled(t, 0);
    assert t[0..] == t;
    TokenizeSpelled(t, 0, x);
    TilingGivesGoodChunks(x, 0);
  }

  // ---- Printing and reading back ------------------------------------------------------------------

  function PrintChunk(c: Chunk): string {
    match c
    case LiteralChunk(text) => text
    case ExpressionChunk(source, _) => "{{ " + source + " }}"
  }

  function Print(cs: seq<Chunk>): string {
    if cs == [] then [] else Print(Init(cs)) + PrintChunk(Last(cs))
  }

  /** A chunk list without the positions of its expressions. */
  function Bare(cs: seq<Chunk>): seq<Chunk> {
    seq(|cs|, i requires 0 <= i < |cs| =>
      match cs[i] case LiteralChunk(text) => cs[i] case ExpressionChunk(source, _) => ExpressionChunk(source, 0))
  }

  lemma {:induction false} PrintAppend(a: seq<Chunk>, b: seq<Chunk>)
    ensures Print(a + b) == Print(a) + Print(b)
  {
    if b == [] {
      assert a + b == a;
    } else {
      PrintAppend(a, Init(b));
      PrintPush(a + Init(b), Last(b));
      PrintPush(Init(b), Last(b));
      InitLast(b);
      assert a + b == (a + Init(b)) + [Last(b)];
      Regroup(Print(a), Print(Init(b)), PrintChunk(Last(b)));
    }
  }

  lemma PrintPush(cs: seq<Chunk>, c: Chunk)
    ensures Print(cs + [c]) == Print(cs) + PrintChunk(c)
  {
    assert Init(cs + [c]) == cs;
  }

  /** The tiling a printed chunk list has: one blank on each side of every source. */
  ghost function Respaced(x: Tiling): Tiling {
    Tiling(seq(|x.segments|, i requires 0 <= i < |x.segments| =>
                 Segment(x.segments[i].text, " " + Strip(x.segments[i].raw, IsSpace) + " ")), x.tail)
  }

  lemma StripBlanks(source: string)
    requires source != [] && Trimmed(source, IsSpace)
    ensures Strip(" " + source + " ", IsSpace) == source
  {
    var s := " " + source + " ";
    assert s[1..] == source + " ";
    assert StripLeft(s, IsSpace) == StripLeft(source + " ", IsSpace) == source + " ";
    assert Init(source + " ") == source;
    StripTrimmed(source, IsSpace);
  }

  lemma RespacedRawIsGood(raw: string)
    requires GoodRaw(raw)
    ensures
      var raw' := " " + Strip(raw, IsSpace) + " ";
      GoodRaw(raw') && Strip(raw', IsSpace) == Strip(raw, IsSpace)
  {
    var source := Strip(raw, IsSpace);
    SourceIsGood(raw);
    StripBlanks(source);
    var raw' := " " + source + " ";
    forall k
      ensures !PairAt(raw', '}', k)
    {
      assert 0 < k < |source| ==> !PairAt(source, '}', k - 1);
    }
  }

  lemma RespacedIsGood(x: Tiling)
    requires Good(x)
    ensures Good(Respaced(x))
  {
    forall i | 0 <= i < |x.segments|
      ensures GoodRaw(Respaced(x).segments[i].raw)
    {
      RespacedRawIsGood(x.segments[i].raw);
    }
  }

  lemma PrintLiteral(text: string)
    ensures Print(LiteralOf(text)) == text
  {
    if text != [] {
      assert Init([LiteralChunk(text)]) == [];
    }
  }

  lemma PrintSegment(s: Segment, offset: nat)
    ensures Print(LiteralOf(s.text) + [ExpressionChunk(Strip(s.raw, IsSpace), offset)]) ==
            s.text + ("{{" + (" " + Strip(s.raw, IsSpace) + " ") + "}}")
  {
    var e := ExpressionChunk(Strip(s.raw, IsSpace), offset);
    PrintLiteral(s.text);
    assert Init(LiteralOf(s.text) + [e]) == LiteralOf(s.text);
    assert "{{ " + Strip(s.raw, IsSpace) + " }}" == "{{" + (" " + Strip(s.raw, IsSpace) + " ") + "}}";
  }

  lemma RespacedStep(x: Tiling)
    requires x.segments != []
    ensures Respaced(x).segments != [] && Respaced(Rest(x)) == Rest(Respaced(x))
    ensures Respaced(x).segments[0] == Segment(x.segments[0].text, " " + Strip(x.segments[0].raw, IsSpace) + " ")
  {
  }

  lemma PrintedStep(x: Tiling, offset: nat, rest: seq<Chunk>)
    requires x.segments != [] && Print(rest) == Spell(Rest(Respaced(x)))
    ensures Print(HeadOf(x.segments[0], offset) + rest) == Spell(Respaced(x))
  {
    var s := x.segments[0];
    RespacedStep(x);
    PrintSegment(s, offset + |s.text|);
    PrintAppend(HeadOf(s, offset), rest);
  }

  lemma {:induction false} PrintedIsRespaced(x: Tiling, offset: nat)
    ensures Print(ChunksOf(x, offset)) == Spell(Respaced(x))
    decreases |x.segments|
  {
    if x.segments == [] {
      PrintLiteral(x.tail);
    } else {
      var next := After(x.segments[0], offset);
      PrintedIsRespaced(Rest(x), next);
      RespacedStep(x);
      ChunksStep(x, offset);
      PrintedStep(x, offset, ChunksOf(Rest(x), next));
    }
  }

  lemma BareAppend(a: seq<Chunk>, b: seq<Chunk>)
    ensures Bare(a + b) == Bare(a) + Bare(b)
  {
  }

  lemma {:induction false} RespacedSameChunks(x: Tiling, a: nat, b: nat)
    requires Good(x)
    ensures Bare(ChunksOf(Respaced(x), a)) == Bare(ChunksOf(x, b))
    decreases |x.segments|
  {
    if x.segments != [] {
      var s, s' := x.segments[0], Respaced(x).segments[0];
      GoodRest(x);
      RespacedStep(x);
      RespacedSameChunks(Rest(x), After(s', a), After(s, b));
      SameHeads(s, s', a, b);
      ChunksStep(x, b);
      ChunksStep(Respaced(x), a);
      BareJoin(HeadOf(s', a), HeadOf(s, b), ChunksOf(Rest(Respaced(x)), After(s', a)), ChunksOf(Rest(x), After(s, b)));
    }
  }

  lemma BareJoin(a: seq<Chunk>, b: seq<Chunk>, c: seq<Chunk>, d: seq<Chunk>)
    requires Bare(a) == Bare(b) && Bare(c) == Bare(d)
    ensures Bare(a + c) == Bare(b + d)
  {
    BareAppend(a, c);
    BareAppend(b, d);
  }

  lemma SameHeads(s: Segment, s': Segment, a: nat, b: nat)
    requires GoodRaw(s.raw) && s' == Segment(s.text, " " + Strip(s.raw, IsSpace) + " ")
    ensures Bare(HeadOf(s', a)) == Bare(HeadOf(s, b))
  {
    RespacedRawIsGood(s.raw);
  }

  /** Printing a tokenized template and tokenizing it again gives the same literals and sources. */
  lemma PrintRoundTrip(t: string)
    requires TokenizeFrom(t, 0).Success?
    ensures
      var again := TokenizeFrom(Print(TokenizeFrom(t, 0).value), 0);
      again.Success? && Bare(again.value) == Bare(TokenizeFrom(t, 0).value)
  {
    var x := TokenizedIsTiled(t, 0);
    assert t[0..] == t;
    TokenizeSpelled(t, 0, x);
    var printed := Print(ChunksOf(x, 0));
    PrintedIsRespaced(x, 0);
    RespacedIsGood(x);
    assert printed[0..] == printed;
    TokenizeSpelled(printed, 0, Respaced(x));
    RespacedSameChunks(x, 0, 0);
  }

  // ---- Resolving -------------------------------------------------------------------------------------

  /** Parameter values: text, any other scalar, and nested containers. */
  datatype Value =
    | Str(text: string)
    | Null
    | Scalar(repr: string)
    | List(items: seq<Value>)
    | Tuple(items: seq<Value>)
    | Dict(keys: seq<string>, items: seq<Value>)

  datatype ResolveError = Syntax(error: SyntaxError) | Evaluation(message: string)

  /** Expression evaluation and str(), left abstract. */
  datatype Evaluator = Evaluator(eval: string -> Result<Value, string>, str: Value -> string)

  predicate ContainsExpression(t: string) {
    FindPair(t, '{', 0).Some?
  }

  predicate IsSingleExpression(cs: seq<Chunk>) {
    |cs| == 1 && cs[0].ExpressionChunk?
  }

  function Evaluate(ev: Evaluator, source: string): Result<Value, ResolveError> {
    match ev.eval(source)
    case Success(v) => Success(v)
    case Failure(m) => Failure(Evaluation(m))
  }

  /** Literal text with the text of every value in between; the first failing expression decides. */
  ghost function Joined(ev: Evaluator, cs: seq<Chunk>): Result<string, ResolveError> {
    if cs == [] then Success([])
    else
      match Joined(ev, Init(cs))
      case Failure(e) => Failure(e)
      case Success(before) =>
        match Last(cs)
        case LiteralChunk(text) => Success(before + text)
        case ExpressionChunk(source, _) =>
          match Evaluate(ev, source)
          case Failure(e) => Failure(e)
          case Success(v) => Success(before + if v.Null? then [] else ev.str(v))
  }

  /** The resolver without its shortcut. */
  ghost function ResolveFully(ev: Evaluator, t: string): Result<Value, ResolveError> {
    match TokenizeFrom(t, 0)
    case Failure(e) => Failure(Syntax(e))
    case Success(cs) =>
      if IsSingleExpression(cs) then Evaluate(ev, cs[0].source)
      else match Joined(ev, cs) case Failure(e) => Failure(e) case Success(text) => Success(Str(text))
  }

  /** Text without '{{' tokenizes to itself, so the shortcut and the full path agree. */
  lemma ShortcutAgrees(ev: Evaluator, t: string)
    requires !ContainsExpression(t)
    ensures ResolveFully(ev, t) == Success(Str(t))
  {
    FindPairIs(t, '{', 0);
    assert t[0..] == t;
    TokenizeTail(t, 0);
    if t != [] {
      assert Init([LiteralChunk(t)]) == [];
      assert Joined(ev, [LiteralChunk(t)]) == Success([] + t) && [] + t == t;
    }
  }

  method Resolve(ev: Evaluator, t: string) returns (r: Result<Value, ResolveError>)
    ensures r == ResolveFully(ev, t)
  {
    if !ContainsExpression(t) {
      ShortcutAgrees(ev, t);
      return Success(Str(t));
    }
    var tokens := Tokenize(t);
    if tokens.Failure? {
      return Failure(Syntax(tokens.error));
    }
    var cs := tokens.value;
    if IsSingleExpression(cs) {
      return Evaluate(ev, cs[0].source);
    }
    var text := JoinParts(ev, cs);
    r := if text.Failure? then Failure(text.error) else Success(Str(text.value));
  }

  method JoinParts(ev: Evaluator, cs: seq<Chunk>) returns (r: Result<string, ResolveError>)
    ensures r == Joined(ev, cs)
  {
    var parts: string := [];
    var i := 0;
    while i < |cs|
      invariant 0 <= i <= |cs|
      invariant Joined(ev, cs[..i]) == Success(parts)
    {
      assert Init(cs[..i + 1]) == cs[..i];
      if cs[i].LiteralChunk? {
        parts := parts + cs[i].text;
      } else {
        var value := Evaluate(ev, cs[i].source);
        if value.Failure? {
          JoinedFails(ev, cs, i + 1);
          return Failure(value.error);
        }
        parts := parts + if value.value.Null? then [] else ev.str(value.value);
      }
      i := i + 1;
    }
    TakeAll(cs, i);
    r := Success(parts);
  }

  /** A failure part way decides the whole. */
  lemma {:induction false} JoinedFails(ev: Evaluator, cs: seq<Chunk>, k: nat)
    requires k <= |cs| && Joined(ev, cs[..k]).Failure?
    ensures Joined(ev, cs) == Joined(ev, cs[..k])
    decreases |cs| - k
  {
    if k == |cs| {
      TakeAll(cs, k);
    } else {
      assert Init(cs[..k + 1]) == cs[..k];
      JoinedFails(ev, cs, k + 1);
    }
  }

  /** Resolves every text of a parameter tree, rebuilding its containers. */
  ghost function ResolveTree(ev: Evaluator, tree: Value): Result<Value, ResolveError>
    decreases tree, 1
  {
    match tree
    case Str(text) => ResolveFully(ev, text)
    case Null => Success(Null)
    case Scalar(_) => Success(tree)
    case List(items) => Rebuild(ResolveAll(ev, tree, items), vs => List(vs))
    case Tuple(items) => Rebuild(ResolveAll(ev, tree, items), vs => Tuple(vs))
    case Dict(keys, items) => Rebuild(ResolveAll(ev, tree, items), vs => Dict(keys, vs))
  }

  ghost function Rebuild(r: Result<seq<Value>, ResolveError>, wrap: seq<Value> -> Value): Result<Value, ResolveError> {
    match r
    case Failure(e) => Failure(e)
    case Success(vs) => Success(wrap(vs))
  }

  ghost function ResolveAll(ev: Evaluator, parent: Value, items: seq<Value>): Result<seq<Value>, ResolveError>
    requires forall v | v in items :: v < parent
    decreases parent, 0, |items|
  {
    if items == [] then Success([])
    else
      assert items[0] in items && forall v | v in items[1..] :: v in items;
      match ResolveTree(ev, items[0])
      case Failure(e) => Failure(e)
      case Success(v) =>
        match ResolveAll(ev, parent, items[1..])
        case Failure(e) => Failure(e)
        case Success(vs) => Success([v] + vs)
  }

  /** No text anywhere in the tree holds '{{'. */
  ghost predicate BraceFree(tree: Value)
    decreases tree
  {
    match tree
    case Str(text) => !ContainsExpression(text)
    case Null => true
    case Scalar(_) => true
    case List(items) => forall v | v in items :: BraceFree(v)
    case Tuple(items) => forall v | v in items :: BraceFree(v)
    case Dict(_, items) => forall v | v in items :: BraceFree(v)
  }

  /** A tree without expressions resolves to itself. */
  lemma {:induction false} BraceFreeIdentity(ev: Evaluator, tree: Value)
    requires BraceFree(tree)
    ensures ResolveTree(ev, tree) == Success(tree)
    decreases tree, 1
  {
    match tree
    case Str(text) => ShortcutAgrees(ev, text);
    case Null =>
    case Scalar(_) =>
    case List(items) => AllIdentity(ev, tree, items);
    case Tuple(items) => AllIdentity(ev, tree, items);
    case Dict(_, items) => AllIdentity(ev, tree, items);
  }

  lemma {:induction false} AllIdentity(ev: Evaluator, parent: Value, items: seq<Value>)
    requires forall v | v in items :: v < parent && BraceFree(v)
    ensures ResolveAll(ev, parent, items) == Success(items)
    decreases parent, 0, |items|
  {
    if items != [] {
      assert items[0] in items && forall v | v in items[1..] :: v in items;
      BraceFreeIdentity(ev, items[0]);
      AllIdentity(ev, parent, items[1..]);
      assert [items[0]] + items[1..] == items;
    }
  }
}
